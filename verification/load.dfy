/** The ingest loop every ingestor runs: for each prepared row, look the
    row's natural key up in the store, count a skip when a record has it,
    otherwise try to build and create the record, counting an insert on
    success and only logging on failure. Sources run in declared order, and
    an exception outside the per-row handler ends the run, keeping what was
    already written. */
module Load {
  import opened Wrappers
  import opened Store

  /** How one ingestor treats a prepared row of type `L`, storing records of
      type `R` under natural keys of type `K`:
      - `rowKey`: the key the duplicate lookup uses, `None` when computing it
        raises inside the per-row handler;
      - `recKey`: the same key columns read off a stored record;
      - `build`: the record the row creates, `None` when building or
        validating it raises inside the per-row handler. */
  datatype Loader<!L, !R, K> = Loader(rowKey: L -> Option<K>, recKey: R -> K, build: L -> Option<R>)

  /** The store and the counters the loop threads: `inserted` and `skipped`
      are `n_inserts` and `n_skipped`; `logged` counts the rows that only
      produced a log line. */
  datatype State<R> = State(store: seq<R>, inserted: nat, skipped: nat, logged: nat)

  /** The state at the start of `ingest`: the table as it is, counters at zero. */
  function Fresh<R>(store: seq<R>): (st: State<R>)
    ensures st.store == store && Total(st) == 0
  {
    State(store, 0, 0, 0)
  }

  /** Every row handled so far ends in exactly one of the three outcomes. */
  function Total<R>(st: State<R>): nat {
    st.inserted + st.skipped + st.logged
  }

  /** The lookup finds a stored record under the row's key. */
  ghost predicate Found<L, R, K>(ld: Loader<L, R, K>, store: seq<R>, l: L) {
    ld.rowKey(l).Some? && HasKey(store, ld.recKey, ld.rowKey(l).value)
  }

  /** One iteration of the row loop. */
  function Step<L, R, K(==)>(ld: Loader<L, R, K>, st: State<R>, l: L): (r: State<R>)
    ensures Total(r) == Total(st) + 1
    ensures r.skipped == st.skipped + 1 <==> Found(ld, st.store, l)
    ensures r.inserted == st.inserted + 1 <==> ld.rowKey(l).Some? && !Found(ld, st.store, l) && ld.build(l).Some?
    ensures r.inserted == st.inserted + 1 ==> r.store == st.store + [ld.build(l).value]
    ensures r.inserted == st.inserted ==> r.store == st.store
  {
    match ld.rowKey(l)
    case None => st.(logged := st.logged + 1)
    case Some(k) =>
      if FindKey(st.store, ld.recKey, k).Some? then st.(skipped := st.skipped + 1)
      else match ld.build(l)
        case Some(rec) => st.(store := Create(st.store, rec), inserted := st.inserted + 1)
        case None => st.(logged := st.logged + 1)
  }

  /** The row loop over one source's prepared rows, in order. */
  function Run<L, R, K(==)>(ld: Loader<L, R, K>, st: State<R>, rows: seq<L>): (r: State<R>)
    ensures Total(r) == Total(st) + |rows|
    ensures r.inserted >= st.inserted && r.skipped >= st.skipped && r.logged >= st.logged
    ensures st.store <= r.store
    ensures |r.store| == |st.store| + (r.inserted - st.inserted)
    decreases |rows|
  {
    if |rows| == 0 then st
    else Run(ld, Step(ld, st, rows[0]), rows[1..])
  }

  /** Running over `a + b` is running over `a`, then over `b`. */
  lemma {:induction false} RunAppend<L, R, K>(ld: Loader<L, R, K>, st: State<R>, a: seq<L>, b: seq<L>)
    ensures Run(ld, st, a + b) == Run(ld, Run(ld, st, a), b)
    decreases |a|
  {
    if |a| == 0 {
      assert a + b == b;
    } else {
      assert (a + b)[0] == a[0] && (a + b)[1..] == a[1..] + b;
      RunAppend(ld, Step(ld, st, a[0]), a[1..], b);
    }
  }

  /** Every record the loop appends was built from one of its rows. */
  lemma {:induction false} RunBuilt<L, R, K>(ld: Loader<L, R, K>, st: State<R>, rows: seq<L>, k: nat)
    requires |st.store| <= k < |Run(ld, st, rows).store|
    ensures exists i :: 0 <= i < |rows| && ld.build(rows[i]) == Some(Run(ld, st, rows).store[k])
    decreases |rows|
  {
    var s1 := Step(ld, st, rows[0]);
    if k < |s1.store| {
      assert ld.build(rows[0]) == Some(s1.store[k]);
    } else {
      RunBuilt(ld, s1, rows[1..], k);
      var i :| 0 <= i < |rows[1..]| && ld.build(rows[1..][i]) == Some(Run(ld, s1, rows[1..]).store[k]);
      assert rows[1..][i] == rows[i + 1];
    }
  }

  /** A loader is sound when a built record carries exactly the key its row
      was looked up under. */
  ghost predicate Sound<L(!new), R, K>(ld: Loader<L, R, K>) {
    forall l :: ld.build(l).Some? ==> ld.rowKey(l).Some? && ld.recKey(ld.build(l).value) == ld.rowKey(l).value
  }

  lemma HasKeyGrows<R, K>(s: seq<R>, t: seq<R>, key: R -> K, k: K)
    requires s <= t && HasKey(s, key, k)
    ensures HasKey(t, key, k)
  {
    var i :| 0 <= i < |s| && key(s[i]) == k;
    assert t[i] == s[i];
  }

  /** With a sound loader, after the loop every row that has a key and builds
      a record has its key in the store: it was either found or inserted. */
  lemma {:induction false} RunCovers<L(!new), R, K>(ld: Loader<L, R, K>, st: State<R>, rows: seq<L>, i: nat)
    requires Sound(ld) && i < |rows|
    requires ld.build(rows[i]).Some?
    ensures HasKey(Run(ld, st, rows).store, ld.recKey, ld.rowKey(rows[i]).value)
    decreases |rows|
  {
    var s1 := Step(ld, st, rows[0]);
    var k := ld.rowKey(rows[i]).value;
    if i == 0 {
      if !Found(ld, st.store, rows[0]) {
        assert s1.store == st.store + [ld.build(rows[0]).value];
        assert ld.recKey(s1.store[|st.store|]) == k;
      } else {
        HasKeyGrows(st.store, s1.store, ld.recKey, k);
      }
      HasKeyGrows(s1.store, Run(ld, s1, rows[1..]).store, ld.recKey, k);
    } else {
      assert rows[1..][i - 1] == rows[i];
      RunCovers(ld, s1, rows[1..], i - 1);
    }
  }

  /** A second pass, over rows whose keys are all covered by the store, writes
      nothing: every row is skipped or logged. */
  lemma {:induction false} RerunWritesNothing<L(!new), R, K>(ld: Loader<L, R, K>, st: State<R>, rows: seq<L>)
    requires Sound(ld)
    requires forall i :: 0 <= i < |rows| && ld.build(rows[i]).Some? ==> HasKey(st.store, ld.recKey, ld.rowKey(rows[i]).value)
    ensures Run(ld, st, rows).store == st.store
    ensures Run(ld, st, rows).inserted == st.inserted
    ensures (forall i :: 0 <= i < |rows| ==> ld.build(rows[i]).Some?) ==> Run(ld, st, rows).skipped == st.skipped + |rows|
    decreases |rows|
  {
    if |rows| > 0 {
      var s1 := Step(ld, st, rows[0]);
      assert s1.store == st.store && s1.inserted == st.inserted;
      forall i | 0 <= i < |rows[1..]| && ld.build(rows[1..][i]).Some?
        ensures HasKey(s1.store, ld.recKey, ld.rowKey(rows[1..][i]).value)
      {
        assert rows[1..][i] == rows[i + 1];
      }
      RerunWritesNothing(ld, s1, rows[1..]);
      if forall i :: 0 <= i < |rows| ==> ld.build(rows[i]).Some? {
        assert ld.build(rows[0]).Some?;
        assert s1.skipped == st.skipped + 1;
        assert forall i :: 0 <= i < |rows[1..]| ==> rows[1..][i] == rows[i + 1];
      }
    }
  }

  /** Idempotence of the loop: running it again over the same rows from the
      store it produced inserts nothing and leaves the store as it was; when
      every row builds a record, every row of the second run is a skip. */
  lemma RunIdempotent<L(!new), R, K>(ld: Loader<L, R, K>, st: State<R>, rows: seq<L>)
    requires Sound(ld)
    ensures var again := Run(ld, Fresh(Run(ld, st, rows).store), rows);
            && again.store == Run(ld, st, rows).store
            && again.inserted == 0
            && ((forall i :: 0 <= i < |rows| ==> ld.build(rows[i]).Some?) ==> again.skipped == |rows|)
  {
    var r := Run(ld, st, rows);
    forall i | 0 <= i < |rows| && ld.build(rows[i]).Some?
      ensures HasKey(r.store, ld.recKey, ld.rowKey(rows[i]).value)
    {
      RunCovers(ld, st, rows, i);
    }
    RerunWritesNothing(ld, Fresh(r.store), rows);
  }

  /** No two records of `s` share a natural key. */
  ghost predicate DistinctKeys<R, K>(s: seq<R>, key: R -> K) {
    forall i, j :: 0 <= i < j < |s| ==> key(s[i]) != key(s[j])
  }

  /** The duplicate guard works: with a sound loader, a store without
      duplicate keys stays without them. */
  lemma {:induction false} RunKeepsKeysDistinct<L(!new), R, K>(ld: Loader<L, R, K>, st: State<R>, rows: seq<L>)
    requires Sound(ld) && DistinctKeys(st.store, ld.recKey)
    ensures DistinctKeys(Run(ld, st, rows).store, ld.recKey)
    decreases |rows|
  {
    if |rows| > 0 {
      var s1 := Step(ld, st, rows[0]);
      if s1.inserted == st.inserted + 1 {
        var rec := ld.build(rows[0]).value;
        assert ld.recKey(rec) == ld.rowKey(rows[0]).value;
        assert !HasKey(st.store, ld.recKey, ld.recKey(rec));
        forall i, j | 0 <= i < j < |s1.store|
          ensures ld.recKey(s1.store[i]) != ld.recKey(s1.store[j])
        {
          if j == |st.store| {
            assert s1.store[i] == st.store[i];
          }
        }
      }
      RunKeepsKeysDistinct(ld, s1, rows[1..]);
    }
  }

  /** Row and record shapes under which a lookup can never succeed: no row of
      shape `rowOk` has a lookup key equal to the key of a record of shape
      `recOk`, and every record built from such a row has shape `recOk`. */
  ghost predicate KeysNeverMeet<L(!new), R(!new), K>(ld: Loader<L, R, K>, rowOk: L -> bool, recOk: R -> bool) {
    (forall l, rec :: rowOk(l) && recOk(rec) && ld.rowKey(l).Some? ==> ld.recKey(rec) != ld.rowKey(l).value)
    && (forall l :: rowOk(l) && ld.build(l).Some? ==> recOk(ld.build(l).value))
  }

  ghost predicate AllOk<T>(s: seq<T>, ok: T -> bool) {
    forall i :: 0 <= i < |s| ==> ok(s[i])
  }

  /** Under such shapes the guard never fires: the loop skips nothing, and the
      store keeps its shape. */
  lemma {:induction false} NeverSkips<L(!new), R(!new), K>(ld: Loader<L, R, K>, rowOk: L -> bool, recOk: R -> bool, st: State<R>, rows: seq<L>)
    requires KeysNeverMeet(ld, rowOk, recOk) && AllOk(rows, rowOk) && AllOk(st.store, recOk)
    ensures Run(ld, st, rows).skipped == st.skipped
    ensures AllOk(Run(ld, st, rows).store, recOk)
    decreases |rows|
  {
    if |rows| > 0 {
      var s1 := Step(ld, st, rows[0]);
      assert rowOk(rows[0]);
      assert !Found(ld, st.store, rows[0]);
      assert AllOk(rows[1..], rowOk) by {
        forall i | 0 <= i < |rows[1..]| ensures rowOk(rows[1..][i]) {
          assert rows[1..][i] == rows[i + 1];
        }
      }
      NeverSkips(ld, rowOk, recOk, s1, rows[1..]);
    }
  }

  /** Under such shapes the store has no say in how many rows are inserted. */
  lemma {:induction false} InsertsIgnoreStore<L(!new), R(!new), K>(ld: Loader<L, R, K>, rowOk: L -> bool, recOk: R -> bool, a: State<R>, b: State<R>, rows: seq<L>)
    requires KeysNeverMeet(ld, rowOk, recOk) && AllOk(rows, rowOk) && AllOk(a.store, recOk) && AllOk(b.store, recOk)
    requires a.inserted == b.inserted
    ensures Run(ld, a, rows).inserted == Run(ld, b, rows).inserted
    decreases |rows|
  {
    if |rows| > 0 {
      assert rowOk(rows[0]);
      assert !Found(ld, a.store, rows[0]) && !Found(ld, b.store, rows[0]);
      assert AllOk(rows[1..], rowOk) by {
        forall i | 0 <= i < |rows[1..]| ensures rowOk(rows[1..][i]) {
          assert rows[1..][i] == rows[i + 1];
        }
      }
      NeverSkips(ld, rowOk, recOk, a, [rows[0]]);
      NeverSkips(ld, rowOk, recOk, b, [rows[0]]);
      InsertsIgnoreStore(ld, rowOk, recOk, Step(ld, a, rows[0]), Step(ld, b, rows[0]), rows[1..]);
    }
  }

  /** Under such shapes a second run over the same rows, from the store the
      first run left, inserts every record again: the store ends with two
      copies of each record the first run inserted. */
  lemma RerunDuplicates<L(!new), R(!new), K>(ld: Loader<L, R, K>, rowOk: L -> bool, recOk: R -> bool, store: seq<R>, rows: seq<L>)
    requires KeysNeverMeet(ld, rowOk, recOk) && AllOk(rows, rowOk) && AllOk(store, recOk)
    ensures var first := Run(ld, Fresh(store), rows);
            var again := Run(ld, Fresh(first.store), rows);
            again.inserted == first.inserted && |again.store| == |store| + 2 * first.inserted
  {
    var first := Run(ld, Fresh(store), rows);
    NeverSkips(ld, rowOk, recOk, Fresh(store), rows);
    InsertsIgnoreStore(ld, rowOk, recOk, Fresh(store), Fresh(first.store), rows);
  }

  /** How a run ended: the final state, and the exception that ended it early, if any. */
  datatype Outcome<R> = Outcome(state: State<R>, failure: Option<Failure>)

  /** The source loop: each source is either its prepared rows or the failure
      its fetch or preparation raised, which ends the run at that source. */
  function RunBatches<L, R, K(==)>(ld: Loader<L, R, K>, st: State<R>, batches: seq<Result<seq<L>, Failure>>): (o: Outcome<R>)
    ensures st.store <= o.state.store
    ensures (forall b :: 0 <= b < |batches| ==> batches[b].Success?) <==> o.failure.None?
    decreases |batches|
  {
    if |batches| == 0 then Outcome(st, None)
    else match batches[0]
      case Failure(e) => Outcome(st, Some(e))
      case Success(rows) =>
        var o := RunBatches(ld, Run(ld, st, rows), batches[1..]);
        assert forall b :: 1 <= b < |batches| ==> batches[b] == batches[1..][b - 1];
        o
  }

  /** The rows of the sources before the first failing one, in order. */
  function Processed<L>(batches: seq<Result<seq<L>, Failure>>): seq<L>
    decreases |batches|
  {
    if |batches| == 0 || batches[0].Failure? then []
    else batches[0].value + Processed(batches[1..])
  }

  /** The failure of the first failing source. */
  function FirstFailure<L>(batches: seq<Result<seq<L>, Failure>>): (f: Option<Failure>)
    ensures f.Some? ==> exists b :: 0 <= b < |batches| && batches[b] == Failure(f.value)
    decreases |batches|
  {
    if |batches| == 0 then None
    else if batches[0].Failure? then Some(batches[0].error)
    else
      var f := FirstFailure(batches[1..]);
      assert forall b :: 1 <= b < |batches| ==> batches[b] == batches[1..][b - 1];
      f
  }

  /** The source loop is the row loop over every row of the sources before
      the first failure, and reports that failure. */
  lemma {:induction false} RunBatchesIsRun<L, R, K>(ld: Loader<L, R, K>, st: State<R>, batches: seq<Result<seq<L>, Failure>>)
    ensures RunBatches(ld, st, batches) == Outcome(Run(ld, st, Processed(batches)), FirstFailure(batches))
    decreases |batches|
  {
    if |batches| > 0 && batches[0].Success? {
      var rows := batches[0].value;
      RunBatchesIsRun(ld, Run(ld, st, rows), batches[1..]);
      RunAppend(ld, st, rows, Processed(batches[1..]));
    }
  }

  /** Idempotence of a whole ingest: run it again from the store the first
      run left and it inserts nothing, leaves the store as it was, and ends
      the same way. */
  lemma RunBatchesIdempotent<L(!new), R, K>(ld: Loader<L, R, K>, store: seq<R>, batches: seq<Result<seq<L>, Failure>>)
    requires Sound(ld)
    ensures var first := RunBatches(ld, Fresh(store), batches);
            var again := RunBatches(ld, Fresh(first.state.store), batches);
            again.state.store == first.state.store && again.state.inserted == 0 && again.failure == first.failure
  {
    var first := RunBatches(ld, Fresh(store), batches);
    RunBatchesIsRun(ld, Fresh(store), batches);
    RunBatchesIsRun(ld, Fresh(first.state.store), batches);
    RunIdempotent(ld, Fresh(store), Processed(batches));
  }

  /** A whole ingest keeps a duplicate-free store duplicate-free. */
  lemma RunBatchesKeepsKeysDistinct<L(!new), R, K>(ld: Loader<L, R, K>, store: seq<R>, batches: seq<Result<seq<L>, Failure>>)
    requires Sound(ld) && DistinctKeys(store, ld.recKey)
    ensures DistinctKeys(RunBatches(ld, Fresh(store), batches).state.store, ld.recKey)
  {
    RunBatchesIsRun(ld, Fresh(store), batches);
    RunKeepsKeysDistinct(ld, Fresh(store), Processed(batches));
  }

  /** Every row of every source that did not fail has shape `rowOk`. */
  ghost predicate BatchesOk<L>(batches: seq<Result<seq<L>, Failure>>, rowOk: L -> bool) {
    forall b :: 0 <= b < |batches| && batches[b].Success? ==> AllOk(batches[b].value, rowOk)
  }

  lemma ProcessedOk<L>(batches: seq<Result<seq<L>, Failure>>, rowOk: L -> bool)
    requires BatchesOk(batches, rowOk)
    ensures AllOk(Processed(batches), rowOk)
  {
    forall i | 0 <= i < |Processed(batches)|
      ensures rowOk(Processed(batches)[i])
    {
      ProcessedOrigin(batches, i);
    }
  }

  /** Under keys that can never meet, a whole ingest skips nothing, and a
      second ingest from the store the first left inserts every record again. */
  lemma RunBatchesNeverSkips<L(!new), R(!new), K>(ld: Loader<L, R, K>, rowOk: L -> bool, recOk: R -> bool, store: seq<R>, batches: seq<Result<seq<L>, Failure>>)
    requires KeysNeverMeet(ld, rowOk, recOk) && BatchesOk(batches, rowOk) && AllOk(store, recOk)
    ensures RunBatches(ld, Fresh(store), batches).state.skipped == 0
    ensures var first := RunBatches(ld, Fresh(store), batches);
            var again := RunBatches(ld, Fresh(first.state.store), batches);
            again.state.inserted == first.state.inserted && |again.state.store| == |store| + 2 * first.state.inserted
  {
    var first := RunBatches(ld, Fresh(store), batches);
    RunBatchesIsRun(ld, Fresh(store), batches);
    RunBatchesIsRun(ld, Fresh(first.state.store), batches);
    ProcessedOk(batches, rowOk);
    NeverSkips(ld, rowOk, recOk, Fresh(store), Processed(batches));
    RerunDuplicates(ld, rowOk, recOk, store, Processed(batches));
  }

  /** Every row the source loop processes is a row of some source that did not fail. */
  lemma {:induction false} ProcessedOrigin<L>(batches: seq<Result<seq<L>, Failure>>, i: nat)
    requires i < |Processed(batches)|
    ensures exists b, j :: 0 <= b < |batches| && batches[b].Success? && 0 <= j < |batches[b].value|
                           && batches[b].value[j] == Processed(batches)[i]
    decreases |batches|
  {
    var rows := batches[0].value;
    if i < |rows| {
      assert batches[0].value[i] == Processed(batches)[i];
    } else {
      ProcessedOrigin(batches[1..], i - |rows|);
      var b, j :| 0 <= b < |batches[1..]| && batches[1..][b].Success? && 0 <= j < |batches[1..][b].value|
                  && batches[1..][b].value[j] == Processed(batches[1..])[i - |rows|];
      assert batches[b + 1] == batches[1..][b];
    }
  }

  /** Every record a whole ingest appends was built from a row of a source
      that did not fail. */
  lemma RunBatchesBuilt<L, R, K>(ld: Loader<L, R, K>, st: State<R>, batches: seq<Result<seq<L>, Failure>>, k: nat)
    requires |st.store| <= k < |RunBatches(ld, st, batches).state.store|
    ensures exists b, j :: 0 <= b < |batches| && batches[b].Success? && 0 <= j < |batches[b].value|
                           && ld.build(batches[b].value[j]) == Some(RunBatches(ld, st, batches).state.store[k])
  {
    RunBatchesIsRun(ld, st, batches);
    RunBuilt(ld, st, Processed(batches), k);
    var i :| 0 <= i < |Processed(batches)| && ld.build(Processed(batches)[i]) == Some(RunBatches(ld, st, batches).state.store[k]);
    ProcessedOrigin(batches, i);
  }
}
