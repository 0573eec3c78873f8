/** The regeneration planner: which runs a changed prompt or toolchain affects, where to restart each,
    and what to reuse; and the explanation of a stored plan. Requests carry no pipeline or date filter. */
module RegenPlanner {
  import opened Content
  import opened StageRows
  import opened Store

  datatype Request = Request(
    oldPrompt: Option<Sha>, newPrompt: Option<Sha>, oldToolchain: Option<Sha>, newToolchain: Option<Sha>)

  datatype ChangeReason = PromptChange | ToolchainChange | MixedChange

  datatype PlanItem = PlanItem(
    run: string, start: int, reason: ChangeReason, affected: nat,
    reuse: seq<int>, recompute: seq<int>, current: map<int, Sha>)

  datatype PlanResult = Plan(request: Request, items: seq<PlanItem>) | ValueError

  datatype Match = Match(row: StageRow, promptHit: bool, toolchainHit: bool)

  datatype ExplainItem = ExplainItem(
    run: string, reason: ChangeReason, start: int, matches: seq<Match>, earliest: Option<Match>)

  function DetReason(promptHit: bool, toolchainHit: bool): ChangeReason {
    if promptHit && toolchainHit then MixedChange else if promptHit then PromptChange else ToolchainChange
  }

  predicate IsAccepted(req: Request) {
    (req.oldPrompt.Some? && req.newPrompt.Some?) || (req.oldToolchain.Some? && req.newToolchain.Some?)
  }

  predicate PromptHit(req: Request, r: StageRow) { req.oldPrompt.Some? && r.prompt == req.oldPrompt }

  predicate ToolchainHit(req: Request, r: StageRow) { req.oldToolchain.Some? && r.toolchain == req.oldToolchain.value }

  /** The match clause of the query. */
  predicate Matches(req: Request, r: StageRow) { PromptHit(req, r) || ToolchainHit(req, r) }

  function Zeros(n: nat): (zeros: string)
    ensures |zeros| == n && forall c <- zeros :: c == '0'
  {
    seq(n, _ => '0')
  }

  const ZEROS: Sha := Zeros(64)

  /** What the query counts as hits: an absent hash is compared as sixty-four zeros. */
  predicate CountsAsPrompt(req: Request, r: StageRow) {
    r.prompt == Some(if req.oldPrompt.Some? then req.oldPrompt.value else ZEROS)
  }

  predicate CountsAsToolchain(req: Request, r: StageRow) {
    r.toolchain == if req.oldToolchain.Some? then req.oldToolchain.value else ZEROS
  }

  // ---- The aggregate query ----

  function Matching(rows: seq<StageRow>, req: Request): (result: seq<StageRow>)
    ensures forall r :: r in result <==> r in rows && Matches(req, r)
    ensures |result| <= |rows|
  {
    if rows == [] then []
    else
      var before := Matching(rows[..|rows| - 1], req);
      if Matches(req, rows[|rows| - 1]) then before + [rows[|rows| - 1]] else before
  }

  /** One group of the aggregate query: MIN, the two conditional SUMs as booleans, and COUNT. */
  datatype Group = Group(run: string, minIndex: int, promptHit: bool, toolchainHit: bool, count: nat)

  function MinIndex(rows: seq<StageRow>): (least: int)
    requires rows != []
    ensures exists r :: r in rows && r.index == least
    ensures forall r :: r in rows ==> least <= r.index
  {
    if |rows| == 1 then rows[0].index
    else
      var before := MinIndex(rows[..|rows| - 1]);
      if rows[|rows| - 1].index < before then rows[|rows| - 1].index else before
  }

  function GroupOf(rows: seq<StageRow>, req: Request, run: string): (group: Option<Group>)
    ensures group.Some? ==> group.value.run == run
  {
    var matching := Matching(RunRows(rows, run), req);
    if matching == [] then None
    else Some(Group(run, MinIndex(matching),
                    exists r <- matching :: CountsAsPrompt(req, r),
                    exists r <- matching :: CountsAsToolchain(req, r),
                    |matching|))
  }

  // ---- What a plan item says ----

  ghost predicate HasUsable(rows: seq<StageRow>, run: string, index: int) {
    exists r :: r in rows && r.run == run && r.index == index && IsUsable(r)
  }

  function Range(from: int, to: int): (result: seq<int>)
    ensures |result| == if from <= to then to - from else 0
    ensures forall i :: 0 <= i < |result| ==> result[i] == from + i
  {
    seq(if from <= to then to - from else 0, i => from + i)
  }

  ghost predicate CountedAsPrompt(rows: seq<StageRow>, req: Request, run: string) {
    exists r :: r in rows && r.run == run && Matches(req, r) && CountsAsPrompt(req, r)
  }

  ghost predicate CountedAsToolchain(rows: seq<StageRow>, req: Request, run: string) {
    exists r :: r in rows && r.run == run && Matches(req, r) && CountsAsToolchain(req, r)
  }

  /** The start is the least matching index, and the hits are counted over the matching rows. */
  ghost predicate StartsRight(item: PlanItem, req: Request, rows: seq<StageRow>) {
    && (exists r :: r in rows && r.run == item.run && Matches(req, r) && r.index == item.start)
    && (forall r :: r in rows && r.run == item.run && Matches(req, r) ==> item.start <= r.index)
    && item.affected == |Matching(RunRows(rows, item.run), req)|
    && item.reason == DetReason(CountedAsPrompt(rows, req, item.run), CountedAsToolchain(rows, req, item.run))
  }

  ghost predicate IsLastStage(rows: seq<StageRow>, run: string, last: int) {
    && (exists r :: r in rows && r.run == run && r.index == last)
    && (forall r :: r in rows && r.run == run ==> r.index <= last)
  }

  /** Reused are the materialized stages before the start; recomputed is everything from the start to the
      run's last stage; the current outputs are those of all materialized stages. */
  ghost predicate SplitsRight(item: PlanItem, rows: seq<StageRow>) {
    && StrictlyUp(item.reuse)
    && (forall i :: i in item.reuse <==> i < item.start && HasUsable(rows, item.run, i))
    && (exists last :: IsLastStage(rows, item.run, last) && item.recompute == Range(item.start, last + 1))
    && (forall i :: i in item.current <==> HasUsable(rows, item.run, i))
    && (forall r :: r in rows && r.run == item.run && IsUsable(r) ==>
          r.index in item.current && item.current[r.index] == r.output.value)
  }

  /** `runs` is the table of pipeline runs, in the order of their ids. */
  function AffectedRuns(runs: seq<string>, rows: seq<StageRow>, req: Request): seq<string> {
    if runs == [] then []
    else
      var before := AffectedRuns(runs[..|runs| - 1], rows, req);
      if GroupOf(rows, req, runs[|runs| - 1]).Some? then before + [runs[|runs| - 1]] else before
  }

  /** One right item for each of the runs, in their order. */
  ghost predicate ItemsAreRight(items: seq<PlanItem>, affected: seq<string>, req: Request, rows: seq<StageRow>) {
    && |items| == |affected|
    && forall j :: 0 <= j < |items| ==>
         items[j].run == affected[j] && StartsRight(items[j], req, rows) && SplitsRight(items[j], rows)
  }

  lemma NoItemsYet(runs: seq<string>, rows: seq<StageRow>, req: Request)
    ensures ItemsAreRight([], AffectedRuns(runs[..0], rows, req), req, rows)
  {
  }

  lemma NextAffected(runs: seq<string>, rows: seq<StageRow>, req: Request, i: nat)
    requires i < |runs|
    ensures var before := AffectedRuns(runs[..i], rows, req);
            AffectedRuns(runs[..i + 1], rows, req) ==
            if GroupOf(rows, req, runs[i]).Some? then before + [runs[i]] else before
  {
    assert runs[..i + 1][..i] == runs[..i];
  }

  lemma ItemsStayRight(items: seq<PlanItem>, affected: seq<string>, item: PlanItem, req: Request, rows: seq<StageRow>)
    requires ItemsAreRight(items, affected, req, rows) && StartsRight(item, req, rows) && SplitsRight(item, rows)
    ensures ItemsAreRight(items + [item], affected + [item.run], req, rows)
  {
    hide StartsRight, SplitsRight;
  }

  /** Each row with the hashes that the request hits in it. */
  function Marked(rows: seq<StageRow>, req: Request): (matches: seq<Match>)
    ensures |matches| == |rows|
    ensures forall j :: 0 <= j < |rows| ==>
        matches[j] == Match(rows[j], PromptHit(req, rows[j]), ToolchainHit(req, rows[j]))
  {
    if rows == [] then []
    else
      var last := rows[|rows| - 1];
      Marked(rows[..|rows| - 1], req) + [Match(last, PromptHit(req, last), ToolchainHit(req, last))]
  }

  /** The rows of a run that the request hits, in index order, each with the hashes that it hits. */
  ghost predicate ExplainsItem(e: ExplainItem, item: PlanItem, req: Request, rows: seq<StageRow>) {
    var matching := Matching(RunRows(rows, item.run), req);
    && e.run == item.run && e.reason == item.reason && e.start == item.start
    && e.matches == Marked(matching, req)
    && e.earliest == if e.matches == [] then None else Some(e.matches[0])
  }

  class Planner {
    var runs: seq<string>
    var rows: seq<StageRow>
    var plans: seq<PlanResult>

    constructor (runs: seq<string>, rows: seq<StageRow>)
      ensures this.runs == runs && this.rows == rows && plans == []
    {
      this.runs := runs;
      this.rows := rows;
      plans := [];
    }

    /** One item for each run with a matching row, in the order of the run ids. The plan is stored. */
    method PlanRegeneration(req: Request) returns (result: PlanResult)
      requires UniqueSlots(rows)
      modifies this`plans
      ensures result.ValueError? <==>
                !(req.oldPrompt.Some? && req.newPrompt.Some?) && !(req.oldToolchain.Some? && req.newToolchain.Some?)
      ensures result.ValueError? ==> plans == old(plans)
      ensures result.Plan? ==>
        && plans == old(plans) + [result]
        && result.request == req
        && ItemsAreRight(result.items, AffectedRuns(runs, rows, req), req, rows)
    {
      if !IsAccepted(req) {
        return ValueError;
      }
      hide StartsRight, SplitsRight, GroupOf, AffectedRuns, ItemsAreRight;
      NoItemsYet(runs, rows, req);
      var items: seq<PlanItem> := [];
      for i := 0 to |runs|
        invariant ItemsAreRight(items, AffectedRuns(runs[..i], rows, req), req, rows)
        invariant plans == old(plans)
      {
        NextAffected(runs, rows, req, i);
        var group := GroupOf(rows, req, runs[i]);
        if group.Some? {
          var item := BuildItem(req, group.value);
          ItemsStayRight(items, AffectedRuns(runs[..i], rows, req), item, req, rows);
          items := items + [item];
        }
      }
      assert runs[..|runs|] == runs;
      result := Plan(req, items);
      plans := plans + [result];
    }

    /** The explanation of a stored plan against the stage rows as they are now; None when no plan is stored. */
    method GetPlanExplain(id: nat) returns (result: Option<seq<ExplainItem>>)
      requires forall i :: 0 <= i < |plans| ==> plans[i].Plan?
      ensures result.Some? <==> id < |plans|
      ensures result.Some? ==>
        && |result.value| == |plans[id].items|
        && forall i :: 0 <= i < |result.value| ==>
             ExplainsItem(result.value[i], plans[id].items[i], plans[id].request, rows)
    {
      if id >= |plans| {
        return None;
      }
      var plan := plans[id];
      var explained: seq<ExplainItem> := [];
      for i := 0 to |plan.items|
        invariant |explained| == i
        invariant forall k :: 0 <= k < i ==> ExplainsItem(explained[k], plan.items[k], plan.request, rows)
      {
        var item := plan.items[i];
        var matches := FindMatches(RunRows(rows, item.run), plan.request);
        var earliest := if matches == [] then None else Some(matches[0]);
        explained := explained + [ExplainItem(item.run, item.reason, item.start, matches, earliest)];
      }
      return Some(explained);
    }

    method FindMatches(mine: seq<StageRow>, req: Request) returns (matches: seq<Match>)
      ensures matches == Marked(Matching(mine, req), req)
    {
      matches := [];
      for i := 0 to |mine|
        invariant matches == Marked(Matching(mine[..i], req), req)
      {
        var promptHit := req.oldPrompt.Some? && mine[i].prompt == req.oldPrompt;
        var toolchainHit := req.oldToolchain.Some? && mine[i].toolchain == req.oldToolchain.value;
        NextMatch(mine, req, i);
        hide Marked, Matching;
        if promptHit || toolchainHit {
          matches := matches + [Match(mine[i], promptHit, toolchainHit)];
        }
      }
      assert mine[..|mine|] == mine;
    }

    /** The item of one group. */
    method BuildItem(req: Request, group: Group) returns (item: PlanItem)
      requires UniqueSlots(rows) && GroupOf(rows, req, group.run) == Some(group)
      ensures item.run == group.run && StartsRight(item, req, rows) && SplitsRight(item, rows)
    {
      var mine := RunRows(rows, group.run);
      RunRowsAre(rows, group.run);
      assert mine != [] by {
        var r :| r in Matching(mine, req);
      }
      var last, reuse, current := Collect(mine, group.minIndex);
      item := PlanItem(group.run, group.minIndex, DetReason(group.promptHit, group.toolchainHit), group.count,
                       reuse, Range(group.minIndex, last + 1), current);
      GroupIsRight(item, req, rows);
      UsableOfRun(rows, group.run);
      assert IsLastStage(rows, group.run, last);
    }

    /** The loops over the run's stage rows: the last index, the stages to reuse, the current outputs. */
    method Collect(mine: seq<StageRow>, start: int) returns (last: int, reuse: seq<int>, current: map<int, Sha>)
      requires mine != [] && Ascending(mine)
      ensures (exists r :: r in mine && r.index == last) && forall r :: r in mine ==> r.index <= last
      ensures StrictlyUp(reuse) && forall n :: n in reuse <==> n < start && UsableAmong(mine, n)
      ensures forall n :: n in current <==> UsableAmong(mine, n)
      ensures forall r :: r in mine && IsUsable(r) ==> r.index in current && current[r.index] == r.output.value
    {
      last, reuse, current := mine[0].index, [], map[];
      for i := 0 to |mine|
        invariant last == if i == 0 then mine[0].index else mine[i - 1].index
        invariant reuse == ReuseOf(mine[..i], start) && current == CurrentOf(mine[..i])
      {
        var r := mine[i];
        assert mine[..i + 1][..i] == mine[..i];
        if last < r.index {
          last := r.index;
        }
        if IsUsable(r) {
          current := current[r.index := r.output.value];
          if r.index < start {
            reuse := reuse + [r.index];
          }
        }
      }
      assert mine[..|mine|] == mine;
      assert mine[|mine| - 1] in mine;
      ReuseIsUsable(mine, start);
      CurrentIsUsable(mine);
      forall k | 0 <= k < |mine| && IsUsable(mine[k])
        ensures mine[k].index in current && current[mine[k].index] == mine[k].output.value
      {
        CurrentIsTheOutput(mine, k);
      }
    }
  }

  function ReuseOf(mine: seq<StageRow>, start: int): seq<int> {
    if mine == [] then []
    else
      var before, r := ReuseOf(mine[..|mine| - 1], start), mine[|mine| - 1];
      if IsUsable(r) && r.index < start then before + [r.index] else before
  }

  function CurrentOf(mine: seq<StageRow>): map<int, Sha> {
    if mine == [] then map[]
    else
      var before, r := CurrentOf(mine[..|mine| - 1]), mine[|mine| - 1];
      if IsUsable(r) then before[r.index := r.output.value] else before
  }

  lemma {:induction false} ReuseIsUsable(mine: seq<StageRow>, start: int)
    requires Ascending(mine)
    ensures StrictlyUp(ReuseOf(mine, start))
    ensures forall n :: n in ReuseOf(mine, start) <==> n < start && UsableAmong(mine, n)
    decreases |mine|
  {
    if mine != [] {
      var i := |mine| - 1;
      var before := ReuseOf(mine[..i], start);
      ReuseIsUsable(mine[..i], start);
      UsableGrows(mine, i);
      assert mine[..i + 1] == mine;
      hide UsableAmong;
      forall k | 0 <= k < |before| ensures before[k] < mine[i].index {
        assert before[k] in before;
      }
    }
  }

  lemma {:induction false} CurrentIsUsable(mine: seq<StageRow>)
    requires Ascending(mine)
    ensures forall n :: n in CurrentOf(mine) <==> UsableAmong(mine, n)
    decreases |mine|
  {
    if mine != [] {
      var i := |mine| - 1;
      CurrentIsUsable(mine[..i]);
      UsableGrows(mine, i);
      assert mine[..i + 1] == mine;
      hide UsableAmong, IsUsable;
    }
  }

  lemma {:induction false} CurrentIsTheOutput(mine: seq<StageRow>, k: nat)
    requires Ascending(mine) && k < |mine| && IsUsable(mine[k])
    ensures mine[k].index in CurrentOf(mine) && CurrentOf(mine)[mine[k].index] == mine[k].output.value
    decreases |mine|
  {
    if k < |mine| - 1 {
      CurrentIsTheOutput(mine[..|mine| - 1], k);
    }
  }

  lemma NextMatch(mine: seq<StageRow>, req: Request, i: nat)
    requires i < |mine|
    ensures var before := Marked(Matching(mine[..i], req), req);
            Marked(Matching(mine[..i + 1], req), req) ==
            if Matches(req, mine[i]) then before + [Match(mine[i], PromptHit(req, mine[i]), ToolchainHit(req, mine[i]))]
            else before
  {
    var before, r := Matching(mine[..i], req), mine[i];
    assert mine[..i + 1][..i] == mine[..i];
    assert (before + [r])[..|before|] == before;
  }

  /** An item that carries over the group's aggregates starts where it should. */
  lemma GroupIsRight(item: PlanItem, req: Request, rows: seq<StageRow>)
    requires var g := GroupOf(rows, req, item.run);
             && g.Some? && item.start == g.value.minIndex && item.affected == g.value.count
             && item.reason == DetReason(g.value.promptHit, g.value.toolchainHit)
    ensures StartsRight(item, req, rows)
  {
    RunRowsAre(rows, item.run);
  }

  ghost predicate UsableAmong(mine: seq<StageRow>, index: int) {
    exists r :: r in mine && r.index == index && IsUsable(r)
  }

  lemma UsableGrows(mine: seq<StageRow>, i: nat)
    requires i < |mine| && Ascending(mine)
    ensures forall n :: UsableAmong(mine[..i + 1], n) <==>
        UsableAmong(mine[..i], n) || (n == mine[i].index && IsUsable(mine[i]))
    ensures forall n :: UsableAmong(mine[..i], n) ==> n < mine[i].index
    ensures forall r :: r in mine[..i] ==> r.index < mine[i].index
  {
    assert mine[..i + 1] == mine[..i] + [mine[i]];
    forall n | UsableAmong(mine[..i], n) || (n == mine[i].index && IsUsable(mine[i]))
        ensures UsableAmong(mine[..i + 1], n) {
      if UsableAmong(mine[..i], n) {
        var r :| r in mine[..i] && r.index == n && IsUsable(r);
        assert r in mine[..i + 1];
      } else {
        assert mine[i] in mine[..i + 1];
      }
    }
  }

  lemma UsableOfRun(rows: seq<StageRow>, run: string)
    ensures forall n :: UsableAmong(RunRows(rows, run), n) <==> HasUsable(rows, run, n)
  {
    RunRowsAre(rows, run);
  }

  // ---- What the plan and its explanation mean ----

  ghost predicate Affected(rows: seq<StageRow>, req: Request, run: string) {
    exists r :: r in rows && r.run == run && Matches(req, r)
  }

  /** A plan has an item exactly for the runs with a matching row, each once, in the order of the runs. */
  lemma {:induction false} ItemsAreTheAffectedRuns(runs: seq<string>, rows: seq<StageRow>, req: Request)
    ensures forall run :: run in AffectedRuns(runs, rows, req) <==> run in runs && Affected(rows, req, run)
    ensures (forall i, j :: 0 <= i < j < |runs| ==> runs[i] != runs[j]) ==>
              forall i, j :: 0 <= i < j < |AffectedRuns(runs, rows, req)| ==>
                AffectedRuns(runs, rows, req)[i] != AffectedRuns(runs, rows, req)[j]
    decreases |runs|
  {
    hide GroupOf, Affected;
    if runs != [] {
      var before, last := runs[..|runs| - 1], runs[|runs| - 1];
      ItemsAreTheAffectedRuns(before, rows, req);
      assert runs == before + [last];
      GroupMeansAffected(rows, req, last);
      forall i | 0 <= i < |AffectedRuns(before, rows, req)| && last !in before
        ensures AffectedRuns(before, rows, req)[i] != last
      {
        assert AffectedRuns(before, rows, req)[i] in AffectedRuns(before, rows, req);
      }
    }
  }

  lemma GroupMeansAffected(rows: seq<StageRow>, req: Request, run: string)
    ensures GroupOf(rows, req, run).Some? <==> Affected(rows, req, run)
  {
    RunRowsAre(rows, run);
    var matching := Matching(RunRows(rows, run), req);
    assert matching != [] ==> matching[0] in matching;
  }

  /** Every matching stage is recomputed, none is reused, and reuse and recomputation are apart. */
  lemma PlanSeparates(item: PlanItem, req: Request, rows: seq<StageRow>)
    requires StartsRight(item, req, rows) && SplitsRight(item, rows)
    ensures forall r :: r in rows && r.run == item.run && Matches(req, r) ==>
              r.index in item.recompute && r.index !in item.reuse
    ensures forall i :: i in item.reuse ==> i !in item.recompute
    ensures forall r :: r in rows && r.run == item.run ==>
              (r.index in item.recompute || r.index in item.reuse || !HasUsable(rows, item.run, r.index))
  {
    var last :| IsLastStage(rows, item.run, last) && item.recompute == Range(item.start, last + 1);
    forall r | r in rows && r.run == item.run && item.start <= r.index ensures r.index in item.recompute {
      assert item.recompute[r.index - item.start] == r.index;
    }
  }

  /** An explanation lists the matching rows of the run, each with the hashes it really hits. */
  lemma MatchesAreTheHits(e: ExplainItem, item: PlanItem, req: Request, rows: seq<StageRow>)
    requires ExplainsItem(e, item, req, rows)
    ensures forall m :: m in e.matches <==>
              m.row in rows && m.row.run == item.run && Matches(req, m.row)
              && m == Match(m.row, PromptHit(req, m.row), ToolchainHit(req, m.row))
  {
    RunRowsAre(rows, item.run);
    var matching := Matching(RunRows(rows, item.run), req);
    forall m ensures m in e.matches <==>
        m.row in matching && m == Match(m.row, PromptHit(req, m.row), ToolchainHit(req, m.row)) {
      if m in e.matches {
        var j :| 0 <= j < |e.matches| && e.matches[j] == m;
      } else if m.row in matching {
        var j :| 0 <= j < |matching| && matching[j] == m.row;
        assert e.matches[j] in e.matches;
      }
    }
  }

  /** On unchanged rows the explanation's earliest match is the start, and it counts all affected rows. */
  lemma ExplanationAgrees(e: ExplainItem, item: PlanItem, req: Request, rows: seq<StageRow>)
    requires UniqueSlots(rows) && StartsRight(item, req, rows) && ExplainsItem(e, item, req, rows)
    ensures e.earliest.Some? && e.earliest.value.row.index == item.start
    ensures |e.matches| == item.affected
  {
    var mine := RunRows(rows, item.run);
    RunRowsAre(rows, item.run);
    var matching := Matching(mine, req);
    var r :| r in rows && r.run == item.run && Matches(req, r) && r.index == item.start;
    assert r in matching;
    MatchingAscends(mine, req);
    var k :| 0 <= k < |matching| && matching[k] == r;
    assert matching[0] in matching;
  }

  lemma {:induction false} MatchingAscends(mine: seq<StageRow>, req: Request)
    requires Ascending(mine)
    ensures Ascending(Matching(mine, req))
    decreases |mine|
  {
    if mine != [] {
      var before := mine[..|mine| - 1];
      MatchingAscends(before, req);
      forall k | 0 <= k < |Matching(before, req)| ensures Matching(before, req)[k].index < mine[|mine| - 1].index {
        assert Matching(before, req)[k] in before;
      }
    }
  }

  /** The reason that the listed matches support. */
  ghost function ExplainedReason(e: ExplainItem): ChangeReason {
    DetReason(exists m :: m in e.matches && m.promptHit, exists m :: m in e.matches && m.toolchainHit)
  }

  /** A matching row that the query takes for a hit on a hash the request does not name. */
  predicate IsPhantom(req: Request, r: StageRow) {
    (req.oldPrompt.None? && r.prompt == Some(ZEROS)) || (req.oldToolchain.None? && r.toolchain == ZEROS)
  }

  ghost predicate HasPhantom(rows: seq<StageRow>, req: Request, run: string) {
    exists r :: r in rows && r.run == run && Matches(req, r) && IsPhantom(req, r)
  }

  lemma PromptIsMiscounted(e: ExplainItem, item: PlanItem, req: Request, rows: seq<StageRow>)
    requires ExplainsItem(e, item, req, rows)
    ensures (exists m :: m in e.matches && m.promptHit) <==> req.oldPrompt.Some? && CountedAsPrompt(rows, req, item.run)
  {
    hide ExplainsItem, RunRows, Matching;
    MatchesAreTheHits(e, item, req, rows);
    if r :| req.oldPrompt.Some? && r in rows && r.run == item.run && Matches(req, r) && CountsAsPrompt(req, r) {
      assert Match(r, PromptHit(req, r), ToolchainHit(req, r)) in e.matches;
    }
  }

  lemma ToolchainIsMiscounted(e: ExplainItem, item: PlanItem, req: Request, rows: seq<StageRow>)
    requires ExplainsItem(e, item, req, rows)
    ensures (exists m :: m in e.matches && m.toolchainHit) <==>
              req.oldToolchain.Some? && CountedAsToolchain(rows, req, item.run)
  {
    hide ExplainsItem, RunRows, Matching;
    MatchesAreTheHits(e, item, req, rows);
    if r :| req.oldToolchain.Some? && r in rows && r.run == item.run && Matches(req, r) && CountsAsToolchain(req, r) {
      assert Match(r, PromptHit(req, r), ToolchainHit(req, r)) in e.matches;
    }
  }

  /** The plan's reason is the explained one exactly when no matching row carries sixty-four zeros in a
      column whose old hash the request leaves out. */
  lemma ReasonAgreesExactlyWhen(e: ExplainItem, item: PlanItem, req: Request, rows: seq<StageRow>)
    requires StartsRight(item, req, rows) && ExplainsItem(e, item, req, rows)
    ensures item.reason == ExplainedReason(e) <==> !HasPhantom(rows, req, item.run)
  {
    hide ExplainsItem, RunRows, Matching, ZEROS;
    PromptIsMiscounted(e, item, req, rows);
    ToolchainIsMiscounted(e, item, req, rows);
    var first :| first in rows && first.run == item.run && Matches(req, first) && first.index == item.start;
    if req.oldPrompt.None? {
      assert CountsAsToolchain(req, first);
    } else if req.oldToolchain.None? {
      assert CountsAsPrompt(req, first);
    }
  }

  // ---- Reasons in terms of the rows ----

  ghost predicate CarriesPrompt(rows: seq<StageRow>, run: string, prompt: Option<Sha>) {
    prompt.Some? && exists r :: r in rows && r.run == run && r.prompt == prompt
  }

  ghost predicate CarriesToolchain(rows: seq<StageRow>, run: string, toolchain: Option<Sha>) {
    toolchain.Some? && exists r :: r in rows && r.run == run && Some(r.toolchain) == toolchain
  }

  /** The reason says which of the old prompt and the old toolchain the rows of the run carry. */
  ghost predicate ReasonIsRight(reason: ChangeReason, rows: seq<StageRow>, req: Request, run: string) {
    var prompt, toolchain := CarriesPrompt(rows, run, req.oldPrompt), CarriesToolchain(rows, run, req.oldToolchain);
    && (reason.PromptChange? <==> prompt && !toolchain)
    && (reason.ToolchainChange? <==> !prompt && toolchain)
    && (reason.MixedChange? <==> prompt && toolchain)
  }

  /** The explained reason is always right. */
  lemma ExplainedReasonIsRight(e: ExplainItem, item: PlanItem, req: Request, rows: seq<StageRow>)
    requires StartsRight(item, req, rows) && ExplainsItem(e, item, req, rows)
    ensures ReasonIsRight(ExplainedReason(e), rows, req, item.run)
  {
    hide ExplainsItem, RunRows, Matching;
    MatchesAreTheHits(e, item, req, rows);
    forall r | r in rows && r.run == item.run && Matches(req, r)
      ensures Match(r, PromptHit(req, r), ToolchainHit(req, r)) in e.matches
    {
      var m := Match(r, PromptHit(req, r), ToolchainHit(req, r));
      assert m.row in rows;
    }
    var first :| first in rows && first.run == item.run && Matches(req, first) && first.index == item.start;
    hide StartsRight;
    HitsAreCarried(e, item.run, req, rows);
  }

  lemma HitsAreCarried(e: ExplainItem, run: string, req: Request, rows: seq<StageRow>)
    requires forall m :: m in e.matches ==>
               && m.row in rows && m.row.run == run
               && m.promptHit == PromptHit(req, m.row) && m.toolchainHit == ToolchainHit(req, m.row)
    requires forall r :: r in rows && r.run == run && Matches(req, r) ==>
               Match(r, PromptHit(req, r), ToolchainHit(req, r)) in e.matches
    ensures (exists m :: m in e.matches && m.promptHit) <==> CarriesPrompt(rows, run, req.oldPrompt)
    ensures (exists m :: m in e.matches && m.toolchainHit) <==> CarriesToolchain(rows, run, req.oldToolchain)
  {
    if CarriesPrompt(rows, run, req.oldPrompt) {
      var r :| r in rows && r.run == run && r.prompt == req.oldPrompt;
      assert Matches(req, r);
    }
    if CarriesToolchain(rows, run, req.oldToolchain) {
      var r :| r in rows && r.run == run && Some(r.toolchain) == req.oldToolchain;
      assert Matches(req, r);
    }
  }

  lemma ExplanationExists(item: PlanItem, req: Request, rows: seq<StageRow>) returns (e: ExplainItem)
    ensures ExplainsItem(e, item, req, rows)
  {
    var matches := Marked(Matching(RunRows(rows, item.run), req), req);
    e := ExplainItem(
      item.run, item.reason, item.start, matches, if matches == [] then None else Some(matches[0]));
  }

  /** The reason of a plan item is right exactly when no matching row carries sixty-four zeros in a column
      whose old hash the request leaves out. */
  lemma ReasonIsRightExactlyWhen(item: PlanItem, req: Request, rows: seq<StageRow>)
    requires StartsRight(item, req, rows)
    ensures ReasonIsRight(item.reason, rows, req, item.run) <==> !HasPhantom(rows, req, item.run)
  {
    var e := ExplanationExists(item, req, rows);
    hide ExplainsItem, StartsRight, HasPhantom, CarriesPrompt, CarriesToolchain, ExplainedReason;
    ExplainedReasonIsRight(e, item, req, rows);
    ReasonAgreesExactlyWhen(e, item, req, rows);
  }

  /** An item counts the matching stages of its run. */
  lemma AffectedCountsStages(item: PlanItem, req: Request, rows: seq<StageRow>)
    requires UniqueSlots(rows) && StartsRight(item, req, rows)
    ensures item.affected == |set r | r in rows && r.run == item.run && Matches(req, r) :: r.index|
  {
    hide StartsRight;
    assert item.affected == |Matching(RunRows(rows, item.run), req)| by { CountOf(item, req, rows); }
    RunRowsAre(rows, item.run);
    MatchingAscends(RunRows(rows, item.run), req);
    var matching := Matching(RunRows(rows, item.run), req);
    hide Matching, RunRows;
    IndexSetSize(matching);
    assert (set r | r in rows && r.run == item.run && Matches(req, r) :: r.index)
           == (set r | r in matching :: r.index);
  }

  lemma CountOf(item: PlanItem, req: Request, rows: seq<StageRow>)
    requires StartsRight(item, req, rows)
    ensures item.affected == |Matching(RunRows(rows, item.run), req)|
  {
  }

  lemma LastIndexIsNew(rows: seq<StageRow>)
    requires Ascending(rows) && rows != []
    ensures var before, last := rows[..|rows| - 1], rows[|rows| - 1];
            var indices := set r | r in before :: r.index;
            last.index !in indices && (set r | r in rows :: r.index) == indices + {last.index}
  {
    var before, last := rows[..|rows| - 1], rows[|rows| - 1];
    assert rows == before + [last];
  }

  lemma {:induction false} IndexSetSize(rows: seq<StageRow>)
    requires Ascending(rows)
    ensures |set r | r in rows :: r.index| == |rows|
    decreases |rows|
  {
    if rows != [] {
      var before, last := rows[..|rows| - 1], rows[|rows| - 1];
      IndexSetSize(before);
      LastIndexIsNew(rows);
    }
  }
}
