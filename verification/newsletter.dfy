/** The newsletter signup handler (controllers/misc.js) over the Newsletter
    table (models/newsletter.js): a type check, a duplicate check, and one
    insert. */
module Newsletter {
  import opened Http

  /** A row: Sequelize's default auto-increment id and the address. */
  datatype Entry = Entry(id: nat, address: string)

  datatype Table = Table(entries: seq<Entry>, nextId: nat)

  datatype NewsletterOutcome = NewsletterOutcome(response: Response, table: Table)

  const NotAStringMessage := "Address must be a string."
  const DuplicateMessage := "Address is already in database."

  predicate Stored(t: Table, address: string)
  {
    exists e :: e in t.entries && e.address == address
  }

  /** Addresses are unique (the column is `unique: true`). */
  predicate Valid(t: Table)
  {
    forall i, j :: 0 <= i < |t.entries| && 0 <= j < |t.entries| && i != j ==>
      t.entries[i].address != t.entries[j].address
  }

  /** `Newsletter.findOne({ where: { address } })`. */
  function FindAddress(entries: seq<Entry>, address: string): (r: bool)
    ensures r <==> exists i :: 0 <= i < |entries| && entries[i].address == address
  {
    if |entries| == 0 then false
    else entries[0].address == address || FindAddress(entries[1..], address)
  }

  /** The JSON form of a created row. */
  function EntryRecord(e: Entry): map<string, FieldValue>
  {
    map["id" := FInt(e.id), "address" := FStr(e.address)]
  }

  /** `newsletter(req, res)`; `body` is the request body, an absent key
      standing for `undefined`. */
  function Subscribe(t: Table, body: map<string, JsonValue>): (r: NewsletterOutcome)
    ensures !("address" in body && body["address"].JString?) ==>
      r == NewsletterOutcome(Error(400, NotAStringMessage), t)
    ensures "address" in body && body["address"].JString? && Stored(t, body["address"].s) ==>
      r == NewsletterOutcome(Error(409, DuplicateMessage), t)
    ensures r.response.status == 200 <==>
      "address" in body && body["address"].JString? && !Stored(t, body["address"].s)
    ensures r.response.status == 200 ==>
      var e := Entry(t.nextId, body["address"].s);
      && r.table == Table(t.entries + [e], t.nextId + 1)
      && r.response.body == RecordBody(EntryRecord(e))
      && r.response.body.fields["address"] == FStr(body["address"].s)
  {
    if "address" in body && body["address"].JString? then
      var address := body["address"].s;
      if FindAddress(t.entries, address) then
        NewsletterOutcome(Error(409, DuplicateMessage), t)
      else
        var e := Entry(t.nextId, address);
        NewsletterOutcome(Response(200, RecordBody(EntryRecord(e))), Table(t.entries + [e], t.nextId + 1))
    else
      NewsletterOutcome(Error(400, NotAStringMessage), t)
  }

  /** Subscribing keeps stored addresses unique. */
  lemma SubscribePreservesValid(t: Table, body: map<string, JsonValue>)
    requires Valid(t)
    ensures Valid(Subscribe(t, body).table)
  {
    var r := Subscribe(t, body);
    if r.response.status == 200 {
      var n := |t.entries|;
      forall i, j | 0 <= i < |r.table.entries| && 0 <= j < |r.table.entries| && i != j
        ensures r.table.entries[i].address != r.table.entries[j].address
      {
        if i == n {
          assert r.table.entries[j] in t.entries;
        } else if j == n {
          assert r.table.entries[i] in t.entries;
        }
      }
    }
  }

  /** The same address submitted twice: 200, then 409 with nothing
      written. */
  lemma SubmitTwice(t: Table, address: string)
    requires !Stored(t, address)
    ensures var body := map["address" := JString(address)];
      var r1 := Subscribe(t, body);
      var r2 := Subscribe(r1.table, body);
      && r1.response.status == 200
      && r2 == NewsletterOutcome(Error(409, DuplicateMessage), r1.table)
  {
    var body := map["address" := JString(address)];
    var t1 := Subscribe(t, body).table;
    assert t1.entries[|t.entries|] in t1.entries;
  }
}
