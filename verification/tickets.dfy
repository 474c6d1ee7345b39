/** `migrate_tickets`: payment tickets keyed by `id`, e-mail lower-cased. */
module Tickets {
  import opened Wrappers
  import opened Migration
  import opened Text

  /** One object of `tickets.json`; `None` is a field the object does not carry. */
  datatype TicketRecord = TicketRecord(
    id: Option<string>,
    email: Option<string>,
    plan: Option<string>,
    amount: Option<int>,
    paymentMethod: Option<string>,
    status: Option<string>,
    createdAt: Option<string>,
    paidAt: Option<string>)

  /** A row of the ticket table. */
  datatype Ticket = Ticket(
    id: string,
    email: string,
    plan: string,
    amount: int,
    paymentMethod: string,
    status: string,
    createdAt: string,
    paidAt: Option<string>)

  /** A record with only an id. */
  function Bare(id: string): TicketRecord {
    TicketRecord(Some(id), None, None, None, None, None, None, None)
  }

  /** The record's id, unless it is absent or empty. */
  function Key(rec: TicketRecord): Option<string> {
    PresentKey(rec.id)
  }

  /** The row for a new ticket: the e-mail lower-cased, every absent field
      given its default. */
  function Build(id: string, rec: TicketRecord): Ticket {
    Ticket(
      id,
      Lower(rec.email.GetOr("")),
      rec.plan.GetOr("pro"),
      rec.amount.GetOr(0),
      rec.paymentMethod.GetOr("manual"),
      rec.status.GetOr("pending"),
      rec.createdAt.GetOr(""),
      rec.paidAt)
  }

  /** The ticket pass: new tickets are staged, existing ones left alone. */
  function Migrate(store: map<string, Ticket>, recs: seq<TicketRecord>): (r: Outcome<string, Ticket>)
    ensures IsSubMap(store, r.store)
    ensures r.store.Keys == store.Keys + KeysOf(recs, Key)
    ensures r.inserted == |r.store| - |store|
  {
    RunKeys(store, recs, Key, Build);
    Run(store, recs, Key, Build)
  }

  /** A ticket absent before the run is present after it exactly when some
      record carries that non-empty id. */
  lemma InsertsKeyedTickets(store: map<string, Ticket>, recs: seq<TicketRecord>, id: string)
    requires id !in store
    ensures id in Migrate(store, recs).store
        <==> id != "" && exists i :: 0 <= i < |recs| && recs[i].id == Some(id)
  {
    RunInsertsIfAbsent(store, recs, Key, Build, id);
    if exists i :: 0 <= i < |recs| && recs[i].id == Some(id) {
      var i :| 0 <= i < |recs| && recs[i].id == Some(id);
      if id != "" {
        assert Key(recs[i]) == Some(id);
      }
    }
  }

  /** A new ticket id gets the row built from the first record with that id,
      filed under that id. */
  lemma NewRowFromFirstRecord(store: map<string, Ticket>, recs: seq<TicketRecord>, id: string)
    requires id !in store
    requires id in KeysOf(recs, Key)
    ensures id in Migrate(store, recs).store
    ensures Migrate(store, recs).store[id] == Build(id, recs[FirstIndex(recs, Key, id)])
    ensures Migrate(store, recs).store[id].id == id
  {
    RunRowFromFirstRecord(store, recs, Key, Build, id);
  }

  /** A new ticket's e-mail is the first record's e-mail lower-cased, so it
      holds no upper-case ASCII letter. */
  lemma NewEmailLowerCase(store: map<string, Ticket>, recs: seq<TicketRecord>, id: string)
    requires id !in store
    requires id in KeysOf(recs, Key)
    ensures id in Migrate(store, recs).store
    ensures Migrate(store, recs).store[id].email == Lower(recs[FirstIndex(recs, Key, id)].email.GetOr(""))
    ensures IsLower(Migrate(store, recs).store[id].email)
  {
    RunRowFromFirstRecord(store, recs, Key, Build, id);
  }

  /** A record without an id, or with an empty one, changes nothing. */
  lemma SkipsKeylessRecord(store: map<string, Ticket>, rec: TicketRecord)
    requires rec.id.None? || rec.id == Some("")
    ensures Migrate(store, [rec]) == Outcome(store, 0)
  {
    RunOne(store, rec, Key, Build);
  }

  /** A record for a ticket already in the table changes nothing, whatever
      its e-mail. */
  lemma SkipsExistingTicket(store: map<string, Ticket>, rec: TicketRecord)
    requires rec.id.Some? && rec.id.value in store
    ensures Migrate(store, [rec]) == Outcome(store, 0)
  {
    RunOne(store, rec, Key, Build);
  }

  /** A new ticket whose record carries only an id gets an empty e-mail, plan
      "pro", amount 0, payment method "manual", status "pending", an empty
      creation time and no payment time. */
  lemma InsertsWithDefaults(store: map<string, Ticket>, id: string)
    requires id != "" && id !in store
    ensures Migrate(store, [Bare(id)])
         == Outcome(store[id := Ticket(id, "", "pro", 0, "manual", "pending", "", None)], 1)
  {
    RunOne(store, Bare(id), Key, Build);
  }
}
