/** `migrate_stats`: per-question answer tallies. `stats.json` is one object
    whose member names are question ids; there is no key filter, so every
    member name, the empty one included, is a key. */
module Stats {
  import opened Wrappers
  import opened Migration

  /** The tallies one member of `stats.json` carries. */
  datatype StatValues = StatValues(correct: Option<int>, wrong: Option<int>)

  /** One member of the `stats.json` object, in document order. */
  datatype StatEntry = StatEntry(questionId: string, values: StatValues)

  /** A row of the stat table. */
  datatype Stat = Stat(questionId: string, correct: int, wrong: int)

  /** Every member name is a key. */
  function Key(entry: StatEntry): Option<string> {
    Some(entry.questionId)
  }

  /** The row for a new tally, an absent count read as 0. */
  function Build(questionId: string, entry: StatEntry): Stat {
    Stat(questionId, entry.values.correct.GetOr(0), entry.values.wrong.GetOr(0))
  }

  /** The stat pass: new tallies are staged, existing ones left alone. */
  function Migrate(store: map<string, Stat>, entries: seq<StatEntry>): (r: Outcome<string, Stat>)
    ensures IsSubMap(store, r.store)
    ensures r.store.Keys == store.Keys + KeysOf(entries, Key)
    ensures r.inserted == |r.store| - |store|
  {
    RunKeys(store, entries, Key, Build);
    Run(store, entries, Key, Build)
  }

  /** After the pass every member name of the object has a row. */
  lemma EveryEntryHasRow(store: map<string, Stat>, entries: seq<StatEntry>)
    ensures var r := Migrate(store, entries);
      forall i :: 0 <= i < |entries| ==> entries[i].questionId in r.store
  {
    forall i | 0 <= i < |entries|
      ensures entries[i].questionId in Migrate(store, entries).store
    {
      KeysOfMembership(entries, Key, entries[i].questionId);
    }
  }

  /** A new question id gets the tally built from the first member with that
      name, filed under that id. */
  lemma NewRowFromFirstEntry(store: map<string, Stat>, entries: seq<StatEntry>, q: string)
    requires q !in store
    requires q in KeysOf(entries, Key)
    ensures q in Migrate(store, entries).store
    ensures Migrate(store, entries).store[q] == Build(q, entries[FirstIndex(entries, Key, q)])
    ensures Migrate(store, entries).store[q].questionId == q
  {
    RunRowFromFirstRecord(store, entries, Key, Build, q);
  }

  /** No two members share a name, as in the object `json.load` returns. */
  ghost predicate DistinctNames(entries: seq<StatEntry>) {
    forall i, j :: 0 <= i < j < |entries| ==> entries[i].questionId != entries[j].questionId
  }

  /** On an object whose member names are distinct, a member for a question
      without a tally yet gets a tally with that member's own counts, 0 where
      a count is absent. */
  lemma NewRowFromEntry(store: map<string, Stat>, entries: seq<StatEntry>, i: int)
    requires DistinctNames(entries)
    requires 0 <= i < |entries|
    requires entries[i].questionId !in store
    ensures entries[i].questionId in Migrate(store, entries).store
    ensures Migrate(store, entries).store[entries[i].questionId]
         == Stat(entries[i].questionId, entries[i].values.correct.GetOr(0), entries[i].values.wrong.GetOr(0))
  {
    var q := entries[i].questionId;
    KeysOfMembership(entries, Key, q);
    NewRowFromFirstEntry(store, entries, q);
    var f := FirstIndex(entries, Key, q);
    assert entries[f].questionId == q;
    assert f == i;
  }

  /** A member for a question that already has a row changes nothing. */
  lemma SkipsExistingStat(store: map<string, Stat>, entry: StatEntry)
    requires entry.questionId in store
    ensures Migrate(store, [entry]) == Outcome(store, 0)
  {
    RunOne(store, entry, Key, Build);
  }

  /** A new member without counts gets a row with zero correct and zero wrong,
      even when its name is empty. */
  lemma InsertsWithDefaults(store: map<string, Stat>, q: string)
    requires q !in store
    ensures Migrate(store, [StatEntry(q, StatValues(None, None))])
         == Outcome(store[q := Stat(q, 0, 0)], 1)
  {
    RunOne(store, StatEntry(q, StatValues(None, None)), Key, Build);
  }
}
