/** The comparison of two pipeline runs, stage by stage: where they first differ, and in what. */
module RunDiff {
  import opened Content
  import opened StageRows
  import opened Store

  // ---- The stage map ----

  /** A later row for an index replaces an earlier one. */
  function StageMap(rows: seq<StageRow>): map<int, StageRow> {
    if rows == [] then map[]
    else StageMap(rows[..|rows| - 1])[rows[|rows| - 1].index := rows[|rows| - 1]]
  }

  /** The stage map of a run holds exactly the run's rows, each under its index. */
  lemma {:induction false} StageMapHolds(rows: seq<StageRow>)
    requires Ascending(rows)
    ensures forall i :: i in StageMap(rows) ==> StageMap(rows)[i] in rows && StageMap(rows)[i].index == i
    ensures forall r :: r in rows ==> r.index in StageMap(rows) && StageMap(rows)[r.index] == r
    decreases |rows|
  {
    if rows != [] {
      StageMapHolds(rows[..|rows| - 1]);
      assert rows == rows[..|rows| - 1] + [rows[|rows| - 1]];
    }
  }

  /** The stage map that both sides of a comparison are read from. */
  function StagesOf(t: Tables, run: string): map<int, StageRow> { StageMap(RunRows(t.rows, run)) }

  /** The map holds the run's rows, each under its index. */
  ghost predicate AreStagesOf(stages: map<int, StageRow>, rows: seq<StageRow>, run: string) {
    forall i, r :: i in stages && stages[i] == r <==> r in rows && r.run == run && r.index == i
  }

  lemma StagesAreTheRunsRows(t: Tables, run: string)
    requires UniqueSlots(t.rows)
    ensures AreStagesOf(StagesOf(t, run), t.rows, run)
  {
    RunRowsAre(t.rows, run);
    StageMapHolds(RunRows(t.rows, run));
  }

  // ---- What a comparison reports ----

  datatype Comparison =
    | AddedInB(index: int, b: StageRow)
    | RemovedInB(index: int, a: StageRow)
    | Compared(index: int, same: bool, a: StageRow, b: StageRow,
               sameOutput: bool, samePrompt: bool, sameToolchain: bool)

  datatype Classification =
    | Structure
    | OutputPromptToolchain
    | OutputPrompt
    | OutputToolchain
    | OutputOnly
    | PromptOnly
    | ToolchainOnly
    | Metadata

  datatype Report = Report(first: Option<int>, classification: Option<Classification>, comparisons: seq<Comparison>)

  datatype Column = OutputColumn | PromptColumn | ToolchainColumn

  /** The columns in which two rows of the same stage differ. */
  function ChangedColumns(a: StageRow, b: StageRow): set<Column> {
    (if a.output != b.output then {OutputColumn} else {})
    + (if a.prompt != b.prompt then {PromptColumn} else {})
    + (if a.toolchain != b.toolchain then {ToolchainColumn} else {})
  }

  /** What each classification claims; `Structure` claims that the stage is there in one run only. */
  function ClaimedColumns(c: Classification): set<Column> {
    match c
    case Structure => {}
    case OutputPromptToolchain => {OutputColumn, PromptColumn, ToolchainColumn}
    case OutputPrompt => {OutputColumn, PromptColumn}
    case OutputToolchain => {OutputColumn, ToolchainColumn}
    case OutputOnly => {OutputColumn}
    case PromptOnly => {PromptColumn}
    case ToolchainOnly => {ToolchainColumn}
    case Metadata => {PromptColumn, ToolchainColumn}
  }

  /** The stage is there in one run only, or in both with different columns. */
  predicate Differs(ma: map<int, StageRow>, mb: map<int, StageRow>, i: int) {
    (i in ma && i !in mb) || (i !in ma && i in mb) || (i in ma && i in mb && ChangedColumns(ma[i], mb[i]) != {})
  }

  predicate IsClassified(c: Classification, ma: map<int, StageRow>, mb: map<int, StageRow>, i: int) {
    if i in ma && i in mb then c != Structure && ClaimedColumns(c) == ChangedColumns(ma[i], mb[i])
    else c == Structure
  }

  ghost predicate IsFirstDifference(ma: map<int, StageRow>, mb: map<int, StageRow>, first: Option<int>) {
    match first
    case None => forall i :: !Differs(ma, mb, i)
    case Some(i) => Differs(ma, mb, i) && forall j :: j < i ==> !Differs(ma, mb, j)
  }

  ghost predicate IsComparison(c: Comparison, ma: map<int, StageRow>, mb: map<int, StageRow>, i: int) {
    && c.index == i
    && (c.AddedInB? <==> i !in ma && i in mb)
    && (c.RemovedInB? <==> i in ma && i !in mb)
    && (c.AddedInB? ==> c.b == mb[i])
    && (c.RemovedInB? ==> c.a == ma[i])
    && (c.Compared? ==>
          && i in ma && i in mb && c.a == ma[i] && c.b == mb[i]
          && (c.sameOutput <==> OutputColumn !in ChangedColumns(c.a, c.b))
          && (c.samePrompt <==> PromptColumn !in ChangedColumns(c.a, c.b))
          && (c.sameToolchain <==> ToolchainColumn !in ChangedColumns(c.a, c.b))
          && (c.same <==> !Differs(ma, mb, i)))
  }

  /** A report on two stage maps: the least index at which they differ, what is different there, and one
      comparison for each index of either run, in ascending order. */
  ghost predicate IsReport(d: Report, ma: map<int, StageRow>, mb: map<int, StageRow>) {
    && IsFirstDifference(ma, mb, d.first)
    && (d.classification.Some? <==> d.first.Some?)
    && (d.first.Some? ==> IsClassified(d.classification.value, ma, mb, d.first.value))
    && var indices := SortedIndices(ma.Keys + mb.Keys);
    && |d.comparisons| == |indices|
    && forall j :: 0 <= j < |indices| ==> IsComparison(d.comparisons[j], ma, mb, indices[j])
  }

  // ---- The comparison ----

  method BuildStageMap(rows: seq<StageRow>) returns (stages: map<int, StageRow>)
    ensures stages == StageMap(rows)
  {
    stages := map[];
    for i := 0 to |rows|
      invariant stages == StageMap(rows[..i])
    {
      assert rows[..i + 1][..i] == rows[..i];
      stages := stages[rows[i].index := rows[i]];
    }
    assert rows[..|rows|] == rows;
  }

  method Classify(sameOutput: bool, samePrompt: bool, sameToolchain: bool) returns (c: Classification)
    requires !sameOutput || !samePrompt || !sameToolchain
    ensures c != Structure
    ensures OutputColumn in ClaimedColumns(c) <==> !sameOutput
    ensures PromptColumn in ClaimedColumns(c) <==> !samePrompt
    ensures ToolchainColumn in ClaimedColumns(c) <==> !sameToolchain
  {
    if !sameOutput {
      if !samePrompt && !sameToolchain {
        c := OutputPromptToolchain;
      } else if !samePrompt {
        c := OutputPrompt;
      } else if !sameToolchain {
        c := OutputToolchain;
      } else {
        c := OutputOnly;
      }
    } else {
      if !samePrompt && sameToolchain {
        c := PromptOnly;
      } else if samePrompt && !sameToolchain {
        c := ToolchainOnly;
      } else {
        c := Metadata;
      }
    }
  }

  /** None when one of the runs does not exist. */
  method DiffRuns(t: Tables, runA: string, runB: string) returns (report: Option<Report>)
    ensures report.None? <==> runA !in t.runs || runB !in t.runs
    ensures report.Some? ==> IsReport(report.value, StagesOf(t, runA), StagesOf(t, runB))
  {
    if runA !in t.runs || runB !in t.runs {
      return None;
    }
    var ma := BuildStageMap(RunRows(t.rows, runA));
    var mb := BuildStageMap(RunRows(t.rows, runB));
    var result := DiffStages(ma, mb);
    return Some(result);
  }

  /** The first of the given indices, if any, at which the maps differ, and how that is classified. */
  ghost predicate IsFirstAmong(
      ma: map<int, StageRow>, mb: map<int, StageRow>, indices: seq<int>, first: Option<int>, c: Option<Classification>)
  {
    && (c.Some? <==> first.Some?)
    && (first.None? ==> forall j :: 0 <= j < |indices| ==> !Differs(ma, mb, indices[j]))
    && (first.Some? ==>
          && first.value in indices && Differs(ma, mb, first.value) && IsClassified(c.value, ma, mb, first.value)
          && forall j :: 0 <= j < |indices| && indices[j] < first.value ==> !Differs(ma, mb, indices[j]))
  }

  lemma FirstAmongGrows(
      ma: map<int, StageRow>, mb: map<int, StageRow>, indices: seq<int>, k: nat,
      first: Option<int>, c: Option<Classification>, change: Option<Classification>)
    requires k < |indices| && StrictlyUp(indices) && IsFirstAmong(ma, mb, indices[..k], first, c)
    requires change.Some? <==> Differs(ma, mb, indices[k])
    requires change.Some? ==> IsClassified(change.value, ma, mb, indices[k])
    ensures if change.Some? && first.None? then IsFirstAmong(ma, mb, indices[..k + 1], Some(indices[k]), change)
            else IsFirstAmong(ma, mb, indices[..k + 1], first, c)
  {
    hide Differs, IsClassified;
    assert indices[..k + 1] == indices[..k] + [indices[k]];
    assert forall j :: 0 <= j < k ==> indices[..k][j] == indices[j];
  }

  lemma FirstAmongAll(
      ma: map<int, StageRow>, mb: map<int, StageRow>, first: Option<int>, c: Option<Classification>)
    requires IsFirstAmong(ma, mb, SortedIndices(ma.Keys + mb.Keys), first, c)
    ensures IsFirstDifference(ma, mb, first)
  {
    forall i | Differs(ma, mb, i) ensures i in SortedIndices(ma.Keys + mb.Keys) {
      assert i in ma.Keys + mb.Keys;
    }
    hide Differs, IsClassified, SortedIndices;
  }

  method DiffStages(ma: map<int, StageRow>, mb: map<int, StageRow>) returns (report: Report)
    ensures IsReport(report, ma, mb)
  {
    hide Differs, IsClassified, IsComparison, SortedIndices, IsFirstDifference;
    var indices := SortedIndices(ma.Keys + mb.Keys);
    var first: Option<int>, classification: Option<Classification>, comparisons: seq<Comparison> := None, None, [];
    for k := 0 to |indices|
      invariant |comparisons| == k
      invariant forall j :: 0 <= j < k ==> IsComparison(comparisons[j], ma, mb, indices[j])
      invariant IsFirstAmong(ma, mb, indices[..k], first, classification)
    {
      var i := indices[k];
      assert i in ma.Keys + mb.Keys;
      var comparison, change := CompareStage(ma, mb, i);
      FirstAmongGrows(ma, mb, indices, k, first, classification, change);
      hide IsFirstAmong;
      comparisons := comparisons + [comparison];
      if change.Some? && first.None? {
        first, classification := Some(i), change;
      }
    }
    assert indices[..|indices|] == indices;
    FirstAmongAll(ma, mb, first, classification);
    report := Report(first, classification, comparisons);
  }

  /** One round of the loop: the comparison at one index, and how a difference there is classified. */
  method CompareStage(ma: map<int, StageRow>, mb: map<int, StageRow>, i: int)
    returns (comparison: Comparison, change: Option<Classification>)
    requires i in ma || i in mb
    ensures IsComparison(comparison, ma, mb, i)
    ensures change.Some? <==> Differs(ma, mb, i)
    ensures change.Some? ==> IsClassified(change.value, ma, mb, i)
  {
    if i !in ma {
      return AddedInB(i, mb[i]), Some(Structure);
    }
    if i !in mb {
      return RemovedInB(i, ma[i]), Some(Structure);
    }
    var a, b := ma[i], mb[i];
    var sameOutput, samePrompt, sameToolchain := a.output == b.output, a.prompt == b.prompt, a.toolchain == b.toolchain;
    var same := sameOutput && samePrompt && sameToolchain;
    assert OutputColumn in ChangedColumns(a, b) <==> !sameOutput;
    assert PromptColumn in ChangedColumns(a, b) <==> !samePrompt;
    assert ToolchainColumn in ChangedColumns(a, b) <==> !sameToolchain;
    assert same <==> ChangedColumns(a, b) == {};
    comparison := Compared(i, same, a, b, sameOutput, samePrompt, sameToolchain);
    change := None;
    if !same {
      var c := Classify(sameOutput, samePrompt, sameToolchain);
      assert forall column :: column in ClaimedColumns(c) <==> column in ChangedColumns(a, b);
      change := Some(c);
    }
  }

  // ---- What the report means ----

  /** No first difference is reported exactly when both runs have the same stages with the same outputs,
      prompts and toolchains. */
  lemma NoDifferenceExactlyWhen(d: Report, ma: map<int, StageRow>, mb: map<int, StageRow>)
    requires IsReport(d, ma, mb)
    ensures d.first == None <==>
              && ma.Keys == mb.Keys
              && forall i :: i in ma ==>
                   ma[i].output == mb[i].output && ma[i].prompt == mb[i].prompt && ma[i].toolchain == mb[i].toolchain
  {
    if d.first == None {
      forall i ensures i in ma.Keys <==> i in mb.Keys {
        assert !Differs(ma, mb, i);
      }
      forall i | i in ma
        ensures ma[i].output == mb[i].output && ma[i].prompt == mb[i].prompt && ma[i].toolchain == mb[i].toolchain
      {
        assert !Differs(ma, mb, i);
        assert OutputColumn !in ChangedColumns(ma[i], mb[i]);
        assert PromptColumn !in ChangedColumns(ma[i], mb[i]);
        assert ToolchainColumn !in ChangedColumns(ma[i], mb[i]);
      }
    }
  }

  /** The classification, on the columns themselves. */
  ghost predicate NamesTheColumns(c: Classification, a: StageRow, b: StageRow) {
    var output, prompt, toolchain := a.output != b.output, a.prompt != b.prompt, a.toolchain != b.toolchain;
    match c
    case Structure => false
    case OutputPromptToolchain => output && prompt && toolchain
    case OutputPrompt => output && prompt && !toolchain
    case OutputToolchain => output && !prompt && toolchain
    case OutputOnly => output && !prompt && !toolchain
    case PromptOnly => !output && prompt && !toolchain
    case ToolchainOnly => !output && !prompt && toolchain
    case Metadata => !output && prompt && toolchain
  }

  lemma ColumnsCompared(a: StageRow, b: StageRow)
    ensures OutputColumn in ChangedColumns(a, b) <==> a.output != b.output
    ensures PromptColumn in ChangedColumns(a, b) <==> a.prompt != b.prompt
    ensures ToolchainColumn in ChangedColumns(a, b) <==> a.toolchain != b.toolchain
  {
  }

  lemma ClassificationMeans(c: Classification, a: StageRow, b: StageRow)
    requires c != Structure && ClaimedColumns(c) == ChangedColumns(a, b) != {}
    ensures NamesTheColumns(c, a, b)
  {
    ColumnsCompared(a, b);
    assert OutputColumn in ClaimedColumns(c) <==> a.output != b.output;
    assert PromptColumn in ClaimedColumns(c) <==> a.prompt != b.prompt;
    assert ToolchainColumn in ClaimedColumns(c) <==> a.toolchain != b.toolchain;
  }

  /** A report in terms of the columns: where the first difference is, the stage is there in one run only and
      the classification is `Structure`, or it names the columns that differ; and each comparison says of
      each column whether it is the same. */
  lemma ReportMeans(d: Report, ma: map<int, StageRow>, mb: map<int, StageRow>)
    requires IsReport(d, ma, mb)
    ensures d.first.Some? ==>
              var i := d.first.value;
              && d.classification.Some?
              && (d.classification.value == Structure <==> !(i in ma && i in mb))
              && (i in ma && i in mb ==> NamesTheColumns(d.classification.value, ma[i], mb[i]))
    ensures forall c :: c in d.comparisons && c.Compared? ==>
              && c.index in ma && c.index in mb && c.a == ma[c.index] && c.b == mb[c.index]
              && (c.sameOutput <==> c.a.output == c.b.output) && (c.samePrompt <==> c.a.prompt == c.b.prompt)
              && (c.sameToolchain <==> c.a.toolchain == c.b.toolchain)
              && (c.same <==> c.sameOutput && c.samePrompt && c.sameToolchain)
  {
    if d.first.Some? && d.first.value in ma && d.first.value in mb {
      ClassificationMeans(d.classification.value, ma[d.first.value], mb[d.first.value]);
    }
    hide SortedIndices, IsFirstDifference, IsClassified, NamesTheColumns;
    forall c | c in d.comparisons && c.Compared?
      ensures c.index in ma && c.index in mb && c.a == ma[c.index] && c.b == mb[c.index]
      ensures c.sameOutput <==> c.a.output == c.b.output
      ensures c.samePrompt <==> c.a.prompt == c.b.prompt
      ensures c.sameToolchain <==> c.a.toolchain == c.b.toolchain
      ensures c.same <==> c.sameOutput && c.samePrompt && c.sameToolchain
    {
      var j :| 0 <= j < |d.comparisons| && d.comparisons[j] == c;
      var i := SortedIndices(ma.Keys + mb.Keys)[j];
      assert IsComparison(c, ma, mb, i);
      ComparisonMeans(c, ma, mb, i);
    }
  }

  lemma ComparisonMeans(c: Comparison, ma: map<int, StageRow>, mb: map<int, StageRow>, i: int)
    requires IsComparison(c, ma, mb, i) && c.Compared?
    ensures c.index == i && i in ma && i in mb && c.a == ma[i] && c.b == mb[i]
    ensures c.sameOutput <==> c.a.output == c.b.output
    ensures c.samePrompt <==> c.a.prompt == c.b.prompt
    ensures c.sameToolchain <==> c.a.toolchain == c.b.toolchain
    ensures c.same <==> c.sameOutput && c.samePrompt && c.sameToolchain
  {
    ColumnsCompared(c.a, c.b);
    assert ChangedColumns(c.a, c.b) == {} <==>
           OutputColumn !in ChangedColumns(c.a, c.b) && PromptColumn !in ChangedColumns(c.a, c.b)
           && ToolchainColumn !in ChangedColumns(c.a, c.b);
  }

  function Mirrored(c: Comparison): Comparison {
    match c
    case AddedInB(i, b) => RemovedInB(i, b)
    case RemovedInB(i, a) => AddedInB(i, a)
    case Compared(i, same, a, b, sameOutput, samePrompt, sameToolchain) =>
      Compared(i, same, b, a, sameOutput, samePrompt, sameToolchain)
  }

  lemma ClassificationsAreDistinct(c: Classification, d: Classification)
    requires c != Structure && d != Structure && ClaimedColumns(c) == ClaimedColumns(d)
    ensures c == d
  {
    assert OutputColumn in ClaimedColumns(c) <==> OutputColumn in ClaimedColumns(d);
    assert PromptColumn in ClaimedColumns(c) <==> PromptColumn in ClaimedColumns(d);
    assert ToolchainColumn in ClaimedColumns(c) <==> ToolchainColumn in ClaimedColumns(d);
  }

  lemma DifferenceIsSymmetric(ma: map<int, StageRow>, mb: map<int, StageRow>, i: int)
    ensures Differs(ma, mb, i) <==> Differs(mb, ma, i)
  {
    if i in ma && i in mb {
      assert ChangedColumns(ma[i], mb[i]) == ChangedColumns(mb[i], ma[i]);
    }
  }

  lemma SwappedComparison(c: Comparison, d: Comparison, ma: map<int, StageRow>, mb: map<int, StageRow>, i: int)
    requires IsComparison(c, ma, mb, i) && IsComparison(d, mb, ma, i)
    ensures d == Mirrored(c)
  {
    DifferenceIsSymmetric(ma, mb, i);
    if c.Compared? {
      assert ChangedColumns(ma[i], mb[i]) == ChangedColumns(mb[i], ma[i]);
    }
  }

  lemma SwappedClassification(
      c: Classification, d: Classification, ma: map<int, StageRow>, mb: map<int, StageRow>, i: int)
    requires IsClassified(c, ma, mb, i) && IsClassified(d, mb, ma, i)
    ensures c == d
  {
    if i in ma && i in mb {
      assert ChangedColumns(ma[i], mb[i]) == ChangedColumns(mb[i], ma[i]);
      ClassificationsAreDistinct(c, d);
    }
  }

  lemma SwappedFirst(ma: map<int, StageRow>, mb: map<int, StageRow>, x: Option<int>, y: Option<int>)
    requires IsFirstDifference(ma, mb, x) && IsFirstDifference(mb, ma, y)
    ensures x == y
  {
    forall i ensures Differs(ma, mb, i) <==> Differs(mb, ma, i) {
      DifferenceIsSymmetric(ma, mb, i);
    }
    hide Differs;
    assert x.Some? ==> Differs(mb, ma, x.value);
    assert y.Some? ==> Differs(ma, mb, y.value);
  }

  /** Swapping the runs keeps the first index and the classification, and mirrors every comparison. */
  lemma SwappedRuns(d: Report, e: Report, ma: map<int, StageRow>, mb: map<int, StageRow>)
    requires IsReport(d, ma, mb) && IsReport(e, mb, ma)
    ensures e.first == d.first && e.classification == d.classification
    ensures |e.comparisons| == |d.comparisons|
    ensures forall j :: 0 <= j < |d.comparisons| ==> e.comparisons[j] == Mirrored(d.comparisons[j])
  {
    hide IsFirstDifference, IsClassified, IsComparison, Mirrored, SortedIndices;
    SwappedFirst(ma, mb, d.first, e.first);
    assert ma.Keys + mb.Keys == mb.Keys + ma.Keys;
    if d.first.Some? {
      SwappedClassification(d.classification.value, e.classification.value, ma, mb, d.first.value);
    }
    forall j | 0 <= j < |d.comparisons| ensures e.comparisons[j] == Mirrored(d.comparisons[j]) {
      SwappedComparison(d.comparisons[j], e.comparisons[j], ma, mb, SortedIndices(ma.Keys + mb.Keys)[j]);
    }
  }
}
