/** The stage rows of one run in index order, as every reader of the `stage_runs` table selects them, and
    ascending lists of stage indices. */
module StageRows {
  import opened Content
  import opened Store

  function ByIndex(rows: seq<StageRow>, r: StageRow): seq<StageRow> {
    if rows == [] || rows[|rows| - 1].index <= r.index then rows + [r]
    else ByIndex(rows[..|rows| - 1], r) + [rows[|rows| - 1]]
  }

  /** The stage rows of one run, ORDER BY stage_index. */
  function RunRows(rows: seq<StageRow>, run: string): seq<StageRow> {
    if rows == [] then []
    else
      var before := RunRows(rows[..|rows| - 1], run);
      if rows[|rows| - 1].run == run then ByIndex(before, rows[|rows| - 1]) else before
  }

  /** UNIQUE (pipeline_run_id, stage_index). */
  ghost predicate UniqueSlots(rows: seq<StageRow>) {
    forall i, j :: 0 <= i < j < |rows| ==> rows[i].run != rows[j].run || rows[i].index != rows[j].index
  }

  ghost predicate Ascending(rows: seq<StageRow>) {
    forall i, j :: 0 <= i < j < |rows| ==> rows[i].index < rows[j].index
  }

  lemma {:induction false} ByIndexElements(rows: seq<StageRow>, r: StageRow)
    ensures forall s :: s in ByIndex(rows, r) <==> s in rows || s == r
    decreases |rows|
  {
    if rows != [] && rows[|rows| - 1].index > r.index {
      ByIndexElements(rows[..|rows| - 1], r);
      assert rows == rows[..|rows| - 1] + [rows[|rows| - 1]];
    }
  }

  lemma {:induction false} ByIndexAscends(rows: seq<StageRow>, r: StageRow)
    requires Ascending(rows) && forall s :: s in rows ==> s.index != r.index
    ensures Ascending(ByIndex(rows, r))
    decreases |rows|
  {
    if rows != [] && rows[|rows| - 1].index > r.index {
      var before, last := rows[..|rows| - 1], rows[|rows| - 1];
      ByIndexAscends(before, r);
      ByIndexElements(before, r);
      forall s | s in ByIndex(before, r) ensures s.index < last.index {
        assert s == r || exists i :: 0 <= i < |before| && before[i] == s;
      }
    } else if rows != [] {
      assert rows[|rows| - 1] in rows;
    }
  }

  lemma {:induction false} RunRowsAre(rows: seq<StageRow>, run: string)
    ensures forall r :: r in RunRows(rows, run) <==> r in rows && r.run == run
    ensures UniqueSlots(rows) ==> Ascending(RunRows(rows, run))
    decreases |rows|
  {
    if rows != [] {
      var before, last := rows[..|rows| - 1], rows[|rows| - 1];
      RunRowsAre(before, run);
      assert rows == before + [last];
      if last.run == run {
        ByIndexElements(RunRows(before, run), last);
        if UniqueSlots(rows) {
          forall s | s in RunRows(before, run) ensures s.index != last.index {
            var i :| 0 <= i < |before| && before[i] == s;
            assert rows[i] == s;
          }
          ByIndexAscends(RunRows(before, run), last);
        }
      }
    }
  }

  /** A stage whose output is materialized. */
  predicate IsUsable(r: StageRow) { r.status == Success && r.output.Some? }

  // ---- Ascending lists of indices ----

  ghost predicate StrictlyUp(xs: seq<int>) { forall i, j :: 0 <= i < j < |xs| ==> xs[i] < xs[j] }

  ghost predicate IsLeast(k: int, keys: set<int>) { k in keys && forall l :: l in keys ==> k <= l }

  lemma SomeElement(keys: set<int>)
    ensures keys == {} || exists k :: k in keys
  {
    assert (forall k :: k !in keys) ==> keys <= {};
  }

  lemma {:induction false} SomeLeast(keys: set<int>)
    requires keys != {}
    ensures exists k :: IsLeast(k, keys)
    decreases keys
  {
    SomeElement(keys);
    var k :| k in keys;
    if keys == {k} {
      assert IsLeast(k, keys);
    } else {
      SomeLeast(keys - {k});
      var l :| IsLeast(l, keys - {k});
      assert forall m :: m in keys ==> m == k || m in keys - {k};
      assert IsLeast(if k < l then k else l, keys);
    }
  }

  function Least(keys: set<int>): (least: int)
    requires keys != {}
    ensures IsLeast(least, keys)
  {
    SomeLeast(keys);
    assert forall k :: (k in keys && forall l :: l in keys ==> k <= l) ==> IsLeast(k, keys);
    var k :| k in keys && forall l :: l in keys ==> k <= l;
    k
  }

  /** `sorted` of a set of stage indices. */
  function SortedIndices(keys: set<int>): (indices: seq<int>)
    ensures StrictlyUp(indices)
    ensures forall i :: i in indices <==> i in keys
  {
    if keys == {} then []
    else
      var k := Least(keys);
      [k] + SortedIndices(keys - {k})
  }

  lemma FirstIsElement(xs: seq<int>)
    ensures xs != [] ==> xs[0] in xs
  {
  }

  lemma LastIsLargest(xs: seq<int>, i: int)
    requires StrictlyUp(xs) && i in xs
    ensures i <= xs[|xs| - 1] && (i < xs[|xs| - 1] <==> i in xs[..|xs| - 1])
  {
    var k :| 0 <= k < |xs| && xs[k] == i;
    assert k < |xs| - 1 ==> xs[..|xs| - 1][k] == i;
  }

  lemma {:induction false} SameElementsAscending(xs: seq<int>, ys: seq<int>)
    requires StrictlyUp(xs) && StrictlyUp(ys)
    requires forall i :: i in xs <==> i in ys
    ensures xs == ys
    decreases |xs|
  {
    if xs == [] || ys == [] {
      FirstIsElement(xs);
      FirstIsElement(ys);
    } else {
      var before, behind := xs[..|xs| - 1], ys[..|ys| - 1];
      assert xs[|xs| - 1] in xs && ys[|ys| - 1] in ys;
      LastIsLargest(xs, ys[|ys| - 1]);
      LastIsLargest(ys, xs[|xs| - 1]);
      forall i ensures i in before <==> i in behind {
        if i in xs {
          LastIsLargest(xs, i);
          LastIsLargest(ys, i);
        } else {
          assert i in before ==> i in xs;
          assert i in behind ==> i in ys;
        }
      }
      SameElementsAscending(before, behind);
      assert xs == before + [xs[|xs| - 1]] && ys == behind + [ys[|ys| - 1]];
    }
  }
}
