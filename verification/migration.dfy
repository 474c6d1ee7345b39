/** The loop shared by the four `migrate_*` routines: walk the records in
    order, drop a record without a usable key, skip a key the table already
    holds (rows staged earlier in the same run included), otherwise stage
    the row built from the record and count it.

    The table is a map from key to row; `keyOf` extracts a record's key
    (`None` when the record has none) and `build` constructs the row. */
module Migration {
  import opened Wrappers

  /** What one routine leaves behind: the table with this run's rows staged,
      and the number of rows it staged. */
  datatype Outcome<K, V> = Outcome(store: map<K, V>, inserted: nat)

  /** Python truthiness of an optional string key: `None` and `""` are both
      missing (`if not username: continue`). */
  function PresentKey(o: Option<string>): Option<string> {
    if o.Some? && o.value != "" then o else None
  }

  /** Every row of `m` is in `m'`, unchanged. */
  ghost predicate IsSubMap<K, V>(m: map<K, V>, m': map<K, V>) {
    forall k :: k in m ==> k in m' && m'[k] == m[k]
  }

  /** The key a record contributes: none, or its own. */
  function KeySet<R, K>(rec: R, keyOf: R -> Option<K>): set<K> {
    if keyOf(rec).Some? then {keyOf(rec).value} else {}
  }

  /** The usable keys the records carry. */
  ghost function KeysOf<R, K>(recs: seq<R>, keyOf: R -> Option<K>): set<K>
    decreases |recs|
  {
    if |recs| == 0 then {}
    else KeysOf(recs[..|recs| - 1], keyOf) + KeySet(recs[|recs| - 1], keyOf)
  }

  /** `recs[i]` is the first record carrying key `k`. */
  ghost predicate FirstWithKey<R, K>(recs: seq<R>, keyOf: R -> Option<K>, k: K, i: int) {
    && 0 <= i < |recs|
    && keyOf(recs[i]) == Some(k)
    && forall j :: 0 <= j < i ==> keyOf(recs[j]) != Some(k)
  }

  /** One pass of the loop body. */
  function Stage<R, K, V>(o: Outcome<K, V>, rec: R, keyOf: R -> Option<K>, build: (K, R) -> V): (r: Outcome<K, V>)
    ensures IsSubMap(o.store, r.store)
    ensures keyOf(rec).None? ==> r == o
    ensures r.store.Keys == o.store.Keys + KeySet(rec, keyOf)
    ensures keyOf(rec).Some? && keyOf(rec).value in o.store ==> r == o
    ensures r.inserted == o.inserted + (|r.store| - |o.store|)
    ensures forall k :: k in r.store && k !in o.store ==> keyOf(rec) == Some(k) && r.store[k] == build(k, rec)
  {
    match keyOf(rec)
    case None => o
    case Some(k) =>
      if k in o.store then o
      else
        Outcome(o.store[k := build(k, rec)], o.inserted + 1)
  }

  /** The whole loop over `recs`, starting from table `store` and count 0. */
  function Run<R, K, V>(store: map<K, V>, recs: seq<R>, keyOf: R -> Option<K>, build: (K, R) -> V): (r: Outcome<K, V>)
    ensures IsSubMap(store, r.store)
    ensures r.inserted == |r.store| - |store|
    decreases |recs|
  {
    if |recs| == 0 then Outcome(store, 0)
    else
      var init, last := recs[..|recs| - 1], recs[|recs| - 1];
      var prev := Run(store, init, keyOf, build);
      Stage(prev, last, keyOf, build)
  }

  /** After a run the table holds exactly the keys it held before plus the
      usable keys of the records: every record with a usable key ends up with
      a row, and no other key appears. */
  lemma {:induction false} RunKeys<R, K, V>(store: map<K, V>, recs: seq<R>, keyOf: R -> Option<K>, build: (K, R) -> V)
    ensures Run(store, recs, keyOf, build).store.Keys == store.Keys + KeysOf(recs, keyOf)
    decreases |recs|
  {
    if |recs| > 0 {
      var init, last := recs[..|recs| - 1], recs[|recs| - 1];
      RunKeys(store, init, keyOf, build);
      var prev := Run(store, init, keyOf, build);
      var r := Stage(prev, last, keyOf, build);
      assert r == Run(store, recs, keyOf, build);
      assert KeysOf(recs, keyOf) == KeysOf(init, keyOf) + KeySet(last, keyOf);
      assert r.store.Keys == prev.store.Keys + KeySet(last, keyOf);
    }
  }

  /** A key is usable in `recs` exactly when some record carries it. */
  lemma {:induction false} KeysOfMembership<R, K>(recs: seq<R>, keyOf: R -> Option<K>, k: K)
    ensures k in KeysOf(recs, keyOf) <==> exists i :: 0 <= i < |recs| && keyOf(recs[i]) == Some(k)
    decreases |recs|
  {
    if |recs| > 0 {
      var init := recs[..|recs| - 1];
      KeysOfMembership(init, keyOf, k);
      if exists i :: 0 <= i < |recs| && keyOf(recs[i]) == Some(k) {
        var i :| 0 <= i < |recs| && keyOf(recs[i]) == Some(k);
        if i < |recs| - 1 {
          assert init[i] == recs[i];
        }
      }
      if k in KeysOf(init, keyOf) {
        var i :| 0 <= i < |init| && keyOf(init[i]) == Some(k);
        assert recs[i] == init[i];
      }
    }
  }

  /** The count a run reports is the number of keys it added to the table. */
  lemma RunCountsNewKeys<R, K, V>(store: map<K, V>, recs: seq<R>, keyOf: R -> Option<K>, build: (K, R) -> V)
    ensures var r := Run(store, recs, keyOf, build);
      r.inserted == |r.store.Keys - store.Keys|
  {
    var r := Run(store, recs, keyOf, build);
    var a, c := store.Keys, r.store.Keys;
    assert c == a + (c - a);
    assert a * (c - a) == {};
  }

  /** A first occurrence in a prefix stays the first occurrence. */
  lemma FirstWithKeyInPrefix<R, K>(recs: seq<R>, keyOf: R -> Option<K>, k: K, i: int)
    requires |recs| > 0
    requires FirstWithKey(recs[..|recs| - 1], keyOf, k, i)
    ensures FirstWithKey(recs, keyOf, k, i)
  {
    var init := recs[..|recs| - 1];
    assert forall j :: 0 <= j <= i ==> init[j] == recs[j];
  }

  /** The last record is the first to carry a key the others do not carry. */
  lemma FirstWithKeyAtEnd<R, K>(recs: seq<R>, keyOf: R -> Option<K>, k: K)
    requires |recs| > 0
    requires keyOf(recs[|recs| - 1]) == Some(k)
    requires k !in KeysOf(recs[..|recs| - 1], keyOf)
    ensures FirstWithKey(recs, keyOf, k, |recs| - 1)
  {
    var init := recs[..|recs| - 1];
    KeysOfMembership(init, keyOf, k);
    forall j | 0 <= j < |recs| - 1
      ensures keyOf(recs[j]) != Some(k)
    {
      assert init[j] == recs[j];
    }
  }

  /** The position of the first record carrying the usable key `k`. */
  ghost function FirstIndex<R, K>(recs: seq<R>, keyOf: R -> Option<K>, k: K): (i: nat)
    requires k in KeysOf(recs, keyOf)
    ensures FirstWithKey(recs, keyOf, k, i)
    decreases |recs|
  {
    var init := recs[..|recs| - 1];
    if k in KeysOf(init, keyOf) then
      var i := FirstIndex(init, keyOf, k);
      FirstWithKeyInPrefix(recs, keyOf, k, i);
      i
    else
      FirstWithKeyAtEnd(recs, keyOf, k);
      |recs| - 1
  }

  /** A usable key absent before the run gets the row built from the FIRST
      record carrying it: later records with the same key are skipped. */
  lemma {:induction false} RunRowFromFirstRecord<R, K, V>(store: map<K, V>, recs: seq<R>, keyOf: R -> Option<K>, build: (K, R) -> V, k: K)
    requires k !in store
    requires k in KeysOf(recs, keyOf)
    ensures k in Run(store, recs, keyOf, build).store
    ensures Run(store, recs, keyOf, build).store[k] == build(k, recs[FirstIndex(recs, keyOf, k)])
    decreases |recs|
  {
    var init, last := recs[..|recs| - 1], recs[|recs| - 1];
    var prev := Run(store, init, keyOf, build);
    assert Run(store, recs, keyOf, build) == Stage(prev, last, keyOf, build);
    if k in KeysOf(init, keyOf) {
      RunRowFromFirstRecord(store, init, keyOf, build, k);
      assert init[FirstIndex(init, keyOf, k)] == recs[FirstIndex(init, keyOf, k)];
    } else {
      RunKeys(store, init, keyOf, build);
    }
  }

  /** A run over a single record is one pass of the loop body. */
  lemma RunOne<R, K, V>(store: map<K, V>, rec: R, keyOf: R -> Option<K>, build: (K, R) -> V)
    ensures Run(store, [rec], keyOf, build) == Stage(Outcome(store, 0), rec, keyOf, build)
  {
    assert [rec][..0] == [];
  }

  /** A run whose every usable key is already in the table stages nothing. */
  lemma RunOnCoveredStore<R, K, V>(store: map<K, V>, recs: seq<R>, keyOf: R -> Option<K>, build: (K, R) -> V)
    requires KeysOf(recs, keyOf) <= store.Keys
    ensures Run(store, recs, keyOf, build) == Outcome(store, 0)
  {
    var r := Run(store, recs, keyOf, build);
    RunKeys(store, recs, keyOf, build);
    assert r.store.Keys == store.Keys;
    assert r.store == store;
  }

  /** Running the loop again over the same records on the table it produced
      stages nothing and counts zero. */
  lemma RunIdempotent<R, K, V>(store: map<K, V>, recs: seq<R>, keyOf: R -> Option<K>, build: (K, R) -> V)
    ensures var r := Run(store, recs, keyOf, build);
      Run(r.store, recs, keyOf, build) == Outcome(r.store, 0)
  {
    var r := Run(store, recs, keyOf, build);
    RunKeys(store, recs, keyOf, build);
    RunOnCoveredStore(r.store, recs, keyOf, build);
  }

  /** A key absent from the table before the run is present after it exactly
      when some record carries it. */
  lemma RunInsertsIfAbsent<R, K, V>(store: map<K, V>, recs: seq<R>, keyOf: R -> Option<K>, build: (K, R) -> V, k: K)
    requires k !in store
    ensures k in Run(store, recs, keyOf, build).store
        <==> exists i :: 0 <= i < |recs| && keyOf(recs[i]) == Some(k)
  {
    RunKeys(store, recs, keyOf, build);
    KeysOfMembership(recs, keyOf, k);
  }

  /** The loop as the routines write it: a `for` over the records with two
      `continue`s and a staged insert. */
  method MigrateLoop<R, K, V>(store: map<K, V>, recs: seq<R>, keyOf: R -> Option<K>, build: (K, R) -> V)
    returns (staged: map<K, V>, inserted: nat)
    ensures Outcome(staged, inserted) == Run(store, recs, keyOf, build)
  {
    staged, inserted := store, 0;
    for i := 0 to |recs|
      invariant Outcome(staged, inserted) == Run(store, recs[..i], keyOf, build)
    {
      assert recs[..i + 1][..i] == recs[..i];
      var key := keyOf(recs[i]);
      if key.None? {
        continue;
      }
      if key.value in staged {
        continue;
      }
      staged := staged[key.value := build(key.value, recs[i])];
      inserted := inserted + 1;
    }
    assert recs[..|recs|] == recs;
  }
}
