/** Aggregating a trajectory log.

    A line that is blank or does not parse is None.  Each table of the summary
    is stated as a reading of the whole log. */
module Trajectory {
  import opened Names
  import opened Sequences

  datatype Rec =
    | Route(model: string, class_: string, ts: int)
    | Tool(name: string, ok: bool, ts: int)
    | PromptCache(model: string, promptTokens: nat, cachedTokens: nat,
                  readTokens: Option<nat>, creationTokens: Option<nat>, ts: int)
    | Catalog(model: string, reason: string, snapshot: Option<Snapshot>, ts: int)

  /** The tool order and counts that a catalog record may carry. */
  datatype Snapshot = Snapshot(order: seq<string>, catalogCount: Option<nat>, wireCount: Option<nat>,
                               deferredCount: Option<nat>, hasActiveSkills: bool)

  datatype PromptStats = PromptStats(promptTokens: nat, readTokens: nat, creationTokens: nat, records: nat)

  datatype ChurnStats = ChurnStats(model: nat, steady: nat, stablePrefix: nat, toolCatalog: nat, combined: nat)

  datatype OrderStats = OrderStats(snapshots: nat, orderChanges: nat, last: Snapshot, activeSkillSnapshots: nat)

  datatype Summary = Summary(
    classCounts: map<string, nat>,
    modelCounts: map<string, nat>,
    toolOk: map<string, nat>,
    toolErr: map<string, nat>,
    promptCache: map<string, PromptStats>,
    churn: map<string, ChurnStats>,
    orders: map<string, OrderStats>,
    totalRoutes: nat,
    totalTools: nat,
    totalPromptRecords: nat,
    totalChurnRecords: nat,
    timestamps: seq<int>)

  const EMPTY := Summary(map[], map[], map[], map[], map[], map[], map[], 0, 0, 0, 0, [])

  // ---------- Tallies ----------

  type Pick = Option<Rec> -> Option<string>

  function Assigns(pick: Pick, key: string): Option<Rec> -> bool {
    line => pick(line) == Some(key)
  }

  function Takes(pick: Pick): Option<Rec> -> bool {
    line => pick(line).Some?
  }

  /** How many of the first `n` lines `pick` assigns to `key`. */
  function CountOf(lines: seq<Option<Rec>>, n: nat, pick: Pick, key: string): nat
    requires n <= |lines|
  {
    Count(lines, n, Assigns(pick, key))
  }

  /** How many of the first `n` lines `pick` assigns to any key. */
  function Picked(lines: seq<Option<Rec>>, n: nat, pick: Pick): nat
    requires n <= |lines|
  {
    Count(lines, n, Takes(pick))
  }

  lemma PickedStep(lines: seq<Option<Rec>>, n: nat, pick: Pick)
    requires n < |lines|
    ensures Picked(lines, n + 1, pick) == Picked(lines, n, pick) + if pick(lines[n]).Some? then 1 else 0
  {
    assert Takes(pick)(lines[n]) <==> pick(lines[n]).Some?;
  }

  lemma CountOfStep(lines: seq<Option<Rec>>, n: nat, pick: Pick, key: string)
    requires n < |lines|
    ensures CountOf(lines, n + 1, pick, key) == CountOf(lines, n, pick, key) + if pick(lines[n]) == Some(key) then 1 else 0
  {
    assert Assigns(pick, key)(lines[n]) <==> pick(lines[n]) == Some(key);
  }

  function Get(m: map<string, nat>, key: string): nat {
    if key in m then m[key] else 0
  }

  ghost predicate Tallies(m: map<string, nat>, lines: seq<Option<Rec>>, n: nat, pick: Pick)
    requires n <= |lines|
  {
    forall key :: Get(m, key) == CountOf(lines, n, pick, key) && (key in m ==> m[key] > 0)
  }

  function Bump(m: map<string, nat>, key: string): map<string, nat> {
    m[key := Get(m, key) + 1]
  }

  function Tallied(m: map<string, nat>, key: Option<string>): map<string, nat> {
    if key.Some? then Bump(m, key.value) else m
  }

  lemma TallyStep(m: map<string, nat>, lines: seq<Option<Rec>>, n: nat, pick: Pick)
    requires n < |lines| && Tallies(m, lines, n, pick)
    ensures Tallies(Tallied(m, pick(lines[n])), lines, n + 1, pick)
  {
    forall key { CountOfStep(lines, n, pick, key); }
  }

  function Sum(m: map<string, nat>): nat
    decreases |m|
  {
    if m == map[] then 0
    else
      var key := Least(m.Keys);
      m[key] + Sum(m - {key})
  }

  lemma {:induction false} SumRemove(m: map<string, nat>, key: string)
    requires key in m
    ensures Sum(m) == m[key] + Sum(m - {key})
    decreases |m|
  {
    var least := Least(m.Keys);
    if key != least {
      SumRemove(m - {least}, key);
      SumRemove(m - {key}, least);
      assert (m - {least}) - {key} == (m - {key}) - {least};
    }
  }

  lemma SumBump(m: map<string, nat>, key: string)
    ensures Sum(Bump(m, key)) == Sum(m) + 1
  {
    SumRemove(Bump(m, key), key);
    if key in m {
      SumRemove(m, key);
      assert Bump(m, key) - {key} == m - {key};
    } else {
      assert Bump(m, key) - {key} == m;
    }
  }

  /** A tally is conserved: its counts add up to the lines it counts. */
  lemma {:induction false} TallyConserved(m: map<string, nat>, lines: seq<Option<Rec>>, n: nat,
                                          pick: Pick)
    requires n <= |lines| && Tallies(m, lines, n, pick)
    ensures Sum(m) == Picked(lines, n, pick)
  {
    var counted := TallyUpTo(lines, n, pick);
    forall key ensures Get(m, key) == Get(counted, key) && (key in m <==> key in counted) {
    }
    assert m == counted;
  }

  lemma {:induction false} TallyUpTo(lines: seq<Option<Rec>>, n: nat, pick: Pick)
    returns (m: map<string, nat>)
    requires n <= |lines|
    ensures Tallies(m, lines, n, pick) && Sum(m) == Picked(lines, n, pick)
  {
    if n == 0 {
      m := map[];
    } else {
      m := TallyUpTo(lines, n - 1, pick);
      TallyStep(m, lines, n - 1, pick);
      PickedStep(lines, n - 1, pick);
      if pick(lines[n - 1]).Some? {
        SumBump(m, pick(lines[n - 1]).value);
        m := Bump(m, pick(lines[n - 1]).value);
      }
    }
  }

  function ByClass(line: Option<Rec>): Option<string> {
    if line.Some? && line.value.Route? then Some(line.value.class_) else None
  }

  function ByModel(line: Option<Rec>): Option<string> {
    if line.Some? && line.value.Route? then Some(line.value.model) else None
  }

  function ByOkTool(line: Option<Rec>): Option<string> {
    if line.Some? && line.value.Tool? && line.value.ok then Some(line.value.name) else None
  }

  function ByErrTool(line: Option<Rec>): Option<string> {
    if line.Some? && line.value.Tool? && !line.value.ok then Some(line.value.name) else None
  }

  // ---------- Per-model tables ----------

  /** The model's own prompt cache records, in order. */
  function OwnPrompts(lines: seq<Option<Rec>>, n: nat, model: string): (own: seq<Rec>)
    requires n <= |lines|
    ensures forall i :: 0 <= i < |own| ==> own[i].PromptCache?
  {
    if n == 0 then []
    else if lines[n - 1].Some? && lines[n - 1].value.PromptCache? && lines[n - 1].value.model == model then
      OwnPrompts(lines, n - 1, model) + [lines[n - 1].value]
    else OwnPrompts(lines, n - 1, model)
  }

  function OwnReasons(lines: seq<Option<Rec>>, n: nat, model: string): seq<string>
    requires n <= |lines|
  {
    if n == 0 then []
    else if lines[n - 1].Some? && lines[n - 1].value.Catalog? && lines[n - 1].value.model == model then
      OwnReasons(lines, n - 1, model) + [lines[n - 1].value.reason]
    else OwnReasons(lines, n - 1, model)
  }

  function OwnSnapshots(lines: seq<Option<Rec>>, n: nat, model: string): seq<Snapshot>
    requires n <= |lines|
  {
    if n == 0 then []
    else if lines[n - 1].Some? && lines[n - 1].value.Catalog? && lines[n - 1].value.model == model
            && lines[n - 1].value.snapshot.Some? then
      OwnSnapshots(lines, n - 1, model) + [lines[n - 1].value.snapshot.value]
    else OwnSnapshots(lines, n - 1, model)
  }

  function OrElse(value: Option<nat>, default: nat): nat {
    if value.Some? then value.value else default
  }

  function Add(s: PromptStats, r: Rec): PromptStats
    requires r.PromptCache?
  {
    PromptStats(s.promptTokens + r.promptTokens, s.readTokens + OrElse(r.readTokens, r.cachedTokens),
                s.creationTokens + OrElse(r.creationTokens, 0), s.records + 1)
  }

  function PromptsOf(own: seq<Rec>, n: nat): PromptStats
    requires n <= |own| && forall i :: 0 <= i < |own| ==> own[i].PromptCache?
  {
    if n == 0 then PromptStats(0, 0, 0, 0) else Add(PromptsOf(own, n - 1), own[n - 1])
  }

  function Is(reason: string): string -> bool {
    seen => seen == reason
  }

  function Times(reasons: seq<string>, reason: string): nat {
    Count(reasons, |reasons|, Is(reason))
  }

  function ChurnOf(reasons: seq<string>): ChurnStats {
    ChurnStats(Times(reasons, "model"), Times(reasons, "unchanged"), Times(reasons, "stable_prefix"),
               Times(reasons, "tool_catalog"), Times(reasons, "stable_prefix+tool_catalog"))
  }

  /** The number of snapshots whose order differs from the one just before. */
  function Changes(own: seq<Snapshot>, n: nat): nat
    requires n <= |own|
  {
    if n < 2 then 0 else Changes(own, n - 1) + if own[n - 1].order != own[n - 2].order then 1 else 0
  }

  predicate HasSkills(s: Snapshot) { s.hasActiveSkills }

  function OrdersOf(own: seq<Snapshot>): OrderStats
    requires own != []
  {
    OrderStats(|own|, Changes(own, |own|), own[|own| - 1], Count(own, |own|, HasSkills))
  }

  /** A table has, for every model with records of its kind and no other, the
      statistics of exactly those records. */
  ghost predicate PromptTable(m: map<string, PromptStats>, lines: seq<Option<Rec>>, n: nat)
    requires n <= |lines|
  {
    forall model ::
      var own := OwnPrompts(lines, n, model);
      && (model in m <==> own != [])
      && (model in m ==> m[model] == PromptsOf(own, |own|))
  }

  ghost predicate ChurnTable(m: map<string, ChurnStats>, lines: seq<Option<Rec>>, n: nat)
    requires n <= |lines|
  {
    forall model ::
      var own := OwnReasons(lines, n, model);
      && (model in m <==> own != [])
      && (model in m ==> m[model] == ChurnOf(own))
  }

  ghost predicate OrderTable(m: map<string, OrderStats>, lines: seq<Option<Rec>>, n: nat)
    requires n <= |lines|
  {
    forall model ::
      var own := OwnSnapshots(lines, n, model);
      && (model in m <==> own != [])
      && (model in m ==> m[model] == OrdersOf(own))
  }

  lemma {:induction false} PromptsPrefix(own: seq<Rec>, more: Rec, n: nat)
    requires n <= |own| && more.PromptCache? && forall i :: 0 <= i < |own| ==> own[i].PromptCache?
    ensures PromptsOf(own + [more], n) == PromptsOf(own, n)
  {
    if n > 0 {
      PromptsPrefix(own, more, n - 1);
    }
  }

  lemma {:induction false} SnapshotsPrefix(own: seq<Snapshot>, more: Snapshot, n: nat)
    requires n <= |own|
    ensures Changes(own + [more], n) == Changes(own, n)
  {
    if n > 0 {
      SnapshotsPrefix(own, more, n - 1);
    }
  }

  lemma PromptSnoc(own: seq<Rec>, r: Rec)
    requires r.PromptCache? && forall i :: 0 <= i < |own| ==> own[i].PromptCache?
    ensures PromptsOf(own + [r], |own| + 1) == Add(PromptsOf(own, |own|), r)
  {
    PromptsPrefix(own, r, |own|);
  }

  lemma OrderSnoc(own: seq<Snapshot>, s: Snapshot)
    ensures OrdersOf(own + [s]) ==
            OrderStats(|own| + 1,
                       Changes(own, |own|) + (if own != [] && own[|own| - 1].order != s.order then 1 else 0),
                       s, Count(own, |own|, HasSkills) + if s.hasActiveSkills then 1 else 0)
  {
    SnapshotsPrefix(own, s, |own|);
    CountAppend(own, s, |own|, HasSkills);
  }

  lemma ReasonSnoc(own: seq<string>, reason: string, seen: string)
    ensures Times(own + [reason], seen) == Times(own, seen) + if reason == seen then 1 else 0
  {
    CountAppend(own, reason, |own|, Is(seen));
  }

  lemma PromptStep(m: map<string, PromptStats>, lines: seq<Option<Rec>>, n: nat)
    requires n < |lines| && PromptTable(m, lines, n)
    ensures var line := lines[n];
            if line.Some? && line.value.PromptCache? then
              var r := line.value;
              var held := if r.model in m then m[r.model] else PromptStats(0, 0, 0, 0);
              PromptTable(m[r.model := Add(held, r)], lines, n + 1)
            else PromptTable(m, lines, n + 1)
  {
    if lines[n].Some? && lines[n].value.PromptCache? {
      PromptSnoc(OwnPrompts(lines, n, lines[n].value.model), lines[n].value);
    }
  }

  function Churn(s: ChurnStats, reason: string): ChurnStats {
    if reason == "model" then s.(model := s.model + 1)
    else if reason == "unchanged" then s.(steady := s.steady + 1)
    else if reason == "stable_prefix" then s.(stablePrefix := s.stablePrefix + 1)
    else if reason == "tool_catalog" then s.(toolCatalog := s.toolCatalog + 1)
    else if reason == "stable_prefix+tool_catalog" then s.(combined := s.combined + 1)
    else s
  }

  lemma ChurnSnoc(own: seq<string>, reason: string)
    ensures ChurnOf(own + [reason]) == Churn(ChurnOf(own), reason)
  {
    ReasonSnoc(own, reason, "model");
    ReasonSnoc(own, reason, "unchanged");
    ReasonSnoc(own, reason, "stable_prefix");
    ReasonSnoc(own, reason, "tool_catalog");
    ReasonSnoc(own, reason, "stable_prefix+tool_catalog");
    assert "stable_prefix+tool_catalog" != "tool_catalog" && "model" != "tool_catalog" && "unchanged" != "tool_catalog";
  }

  lemma ChurnUpdate(own: seq<string>, reason: string)
    ensures ChurnOf(own + [reason]) == Churn(if own == [] then ChurnStats(0, 0, 0, 0, 0) else ChurnOf(own), reason)
  {
    ChurnSnoc(own, reason);
  }

  lemma ChurnStep(m: map<string, ChurnStats>, lines: seq<Option<Rec>>, n: nat)
    requires n < |lines| && ChurnTable(m, lines, n)
    ensures var line := lines[n];
            if line.Some? && line.value.Catalog? then
              var r := line.value;
              var held := if r.model in m then m[r.model] else ChurnStats(0, 0, 0, 0, 0);
              ChurnTable(m[r.model := Churn(held, r.reason)], lines, n + 1)
            else ChurnTable(m, lines, n + 1)
  {
    if lines[n].Some? && lines[n].value.Catalog? {
      ChurnUpdate(OwnReasons(lines, n, lines[n].value.model), lines[n].value.reason);
    }
  }

  /** The update of a model's order statistics by one more snapshot. */
  function Reorder(previous: Option<OrderStats>, s: Snapshot): OrderStats {
    if previous.None? then OrderStats(1, 0, s, if s.hasActiveSkills then 1 else 0)
    else
      var p := previous.value;
      OrderStats(p.snapshots + 1, p.orderChanges + (if p.last.order != s.order then 1 else 0), s,
                 p.activeSkillSnapshots + if s.hasActiveSkills then 1 else 0)
  }

  lemma ReorderSnoc(own: seq<Snapshot>, s: Snapshot)
    ensures OrdersOf(own + [s]) == Reorder(if own == [] then None else Some(OrdersOf(own)), s)
  {
    OrderSnoc(own, s);
  }

  lemma OrderStep(m: map<string, OrderStats>, lines: seq<Option<Rec>>, n: nat)
    requires n < |lines| && OrderTable(m, lines, n)
    ensures var line := lines[n];
            if line.Some? && line.value.Catalog? && line.value.snapshot.Some? then
              var r := line.value;
              var previous := if r.model in m then Some(m[r.model]) else None;
              OrderTable(m[r.model := Reorder(previous, r.snapshot.value)], lines, n + 1)
            else OrderTable(m, lines, n + 1)
  {
    if lines[n].Some? && lines[n].value.Catalog? && lines[n].value.snapshot.Some? {
      ReorderSnoc(OwnSnapshots(lines, n, lines[n].value.model), lines[n].value.snapshot.value);
    }
  }

  // ---------- The whole summary ----------

  function Stamps(lines: seq<Option<Rec>>, n: nat): seq<int>
    requires n <= |lines|
  {
    if n == 0 then []
    else if lines[n - 1].Some? then Stamps(lines, n - 1) + [lines[n - 1].value.ts]
    else Stamps(lines, n - 1)
  }

  function ByPrompt(line: Option<Rec>): Option<string> {
    if line.Some? && line.value.PromptCache? then Some(line.value.model) else None
  }

  function ByCatalog(line: Option<Rec>): Option<string> {
    if line.Some? && line.value.Catalog? then Some(line.value.model) else None
  }

  ghost predicate TalliesReflect(s: Summary, lines: seq<Option<Rec>>, n: nat)
    requires n <= |lines|
  {
    && Tallies(s.classCounts, lines, n, ByClass)
    && Tallies(s.modelCounts, lines, n, ByModel)
    && Tallies(s.toolOk, lines, n, ByOkTool)
    && Tallies(s.toolErr, lines, n, ByErrTool)
  }

  ghost predicate TotalsReflect(s: Summary, lines: seq<Option<Rec>>, n: nat)
    requires n <= |lines|
  {
    && s.totalRoutes == Picked(lines, n, ByClass) == Picked(lines, n, ByModel)
    && s.totalTools == Picked(lines, n, ByOkTool) + Picked(lines, n, ByErrTool)
    && s.totalPromptRecords == Picked(lines, n, ByPrompt)
    && s.totalChurnRecords == Picked(lines, n, ByCatalog)
    && s.timestamps == Stamps(lines, n)
  }

  ghost predicate TablesReflect(s: Summary, lines: seq<Option<Rec>>, n: nat)
    requires n <= |lines|
  {
    && PromptTable(s.promptCache, lines, n)
    && ChurnTable(s.churn, lines, n)
    && OrderTable(s.orders, lines, n)
  }

  ghost predicate PickSteps(lines: seq<Option<Rec>>, n: nat, pick: Pick)
    requires n < |lines|
  {
    Picked(lines, n + 1, pick) == Picked(lines, n, pick) + if pick(lines[n]).Some? then 1 else 0
  }

  lemma EveryPickSteps(lines: seq<Option<Rec>>, n: nat)
    requires n < |lines|
    ensures PickSteps(lines, n, ByClass) && PickSteps(lines, n, ByModel)
    ensures PickSteps(lines, n, ByOkTool) && PickSteps(lines, n, ByErrTool)
    ensures PickSteps(lines, n, ByPrompt) && PickSteps(lines, n, ByCatalog)
  {
    PickedStep(lines, n, ByClass);
    PickedStep(lines, n, ByModel);
    PickedStep(lines, n, ByOkTool);
    PickedStep(lines, n, ByErrTool);
    PickedStep(lines, n, ByPrompt);
    PickedStep(lines, n, ByCatalog);
  }

  lemma {:induction false} EveryRecordStamped(lines: seq<Option<Rec>>, n: nat)
    requires n <= |lines|
    ensures |Stamps(lines, n)| ==
            Picked(lines, n, ByClass) + Picked(lines, n, ByOkTool) + Picked(lines, n, ByErrTool) +
            Picked(lines, n, ByPrompt) + Picked(lines, n, ByCatalog)
  {
    if n > 0 {
      EveryRecordStamped(lines, n - 1);
      EveryPickSteps(lines, n - 1);
    }
  }

  /** Conservation: classes and models each account for every route, outcomes
      for every tool call, and the timestamps for every record of the four kinds. */
  lemma Conservation(s: Summary, lines: seq<Option<Rec>>)
    requires TalliesReflect(s, lines, |lines|) && TotalsReflect(s, lines, |lines|)
    ensures Sum(s.classCounts) == s.totalRoutes && Sum(s.modelCounts) == s.totalRoutes
    ensures Sum(s.toolOk) + Sum(s.toolErr) == s.totalTools
    ensures |s.timestamps| == s.totalRoutes + s.totalTools + s.totalPromptRecords + s.totalChurnRecords
  {
    EveryRecordStamped(lines, |lines|);
    TallyConserved(s.classCounts, lines, |lines|, ByClass);
    TallyConserved(s.modelCounts, lines, |lines|, ByModel);
    TallyConserved(s.toolOk, lines, |lines|, ByOkTool);
    TallyConserved(s.toolErr, lines, |lines|, ByErrTool);
  }

  /** The tallies after one line. */
  method Tally(s: Summary, lines: seq<Option<Rec>>, n: nat) returns (t: Summary)
    requires n < |lines| && TalliesReflect(s, lines, n)
    ensures TalliesReflect(t, lines, n + 1)
    ensures t == s.(classCounts := t.classCounts, modelCounts := t.modelCounts, toolOk := t.toolOk, toolErr := t.toolErr)
  {
    t := BumpTallies(s, lines[n]);
    TallySteps(s, t, lines, n);
  }

  method BumpTallies(s: Summary, line: Option<Rec>) returns (t: Summary)
    ensures t == s.(classCounts := Tallied(s.classCounts, ByClass(line)),
                    modelCounts := Tallied(s.modelCounts, ByModel(line)),
                    toolOk := Tallied(s.toolOk, ByOkTool(line)),
                    toolErr := Tallied(s.toolErr, ByErrTool(line)))
  {
    match line {
      case Some(Route(model, class_, _)) =>
        t := s.(classCounts := Bump(s.classCounts, class_), modelCounts := Bump(s.modelCounts, model));
      case Some(Tool(name, ok, _)) =>
        if ok {
          t := s.(toolOk := Bump(s.toolOk, name));
        } else {
          t := s.(toolErr := Bump(s.toolErr, name));
        }
      case _ => t := s;
    }
  }

  lemma TallySteps(s: Summary, t: Summary, lines: seq<Option<Rec>>, n: nat)
    requires n < |lines| && TalliesReflect(s, lines, n)
    requires t.classCounts == Tallied(s.classCounts, ByClass(lines[n]))
    requires t.modelCounts == Tallied(s.modelCounts, ByModel(lines[n]))
    requires t.toolOk == Tallied(s.toolOk, ByOkTool(lines[n]))
    requires t.toolErr == Tallied(s.toolErr, ByErrTool(lines[n]))
    ensures TalliesReflect(t, lines, n + 1)
  {
    TallyStep(s.classCounts, lines, n, ByClass);
    TallyStep(s.modelCounts, lines, n, ByModel);
    TallyStep(s.toolOk, lines, n, ByOkTool);
    TallyStep(s.toolErr, lines, n, ByErrTool);
  }

  /** The totals after one line. */
  method Total(s: Summary, lines: seq<Option<Rec>>, n: nat) returns (t: Summary)
    requires n < |lines| && TotalsReflect(s, lines, n)
    ensures TotalsReflect(t, lines, n + 1)
    ensures t == s.(totalRoutes := t.totalRoutes, totalTools := t.totalTools, timestamps := t.timestamps,
                    totalPromptRecords := t.totalPromptRecords, totalChurnRecords := t.totalChurnRecords)
  {
    EveryPickSteps(lines, n);
    var routes, tools := s.totalRoutes, s.totalTools;
    var prompts, churns := s.totalPromptRecords, s.totalChurnRecords;
    var timestamps := s.timestamps;
    match lines[n] {
      case None =>
      case Some(r) =>
        match r {
          case Route(_, _, _) => routes := routes + 1;
          case Tool(_, _, _) => tools := tools + 1;
          case PromptCache(_, _, _, _, _, _) => prompts := prompts + 1;
          case Catalog(_, _, _, _) => churns := churns + 1;
        }
        timestamps := timestamps + [r.ts];
    }
    t := s.(totalRoutes := routes, totalTools := tools, totalPromptRecords := prompts,
            totalChurnRecords := churns, timestamps := timestamps);
  }

  /** The per-model tables after one line. */
  method Tabulate(s: Summary, lines: seq<Option<Rec>>, n: nat) returns (t: Summary)
    requires n < |lines| && TablesReflect(s, lines, n)
    ensures TablesReflect(t, lines, n + 1)
    ensures t == s.(promptCache := t.promptCache, churn := t.churn, orders := t.orders)
  {
    PromptStep(s.promptCache, lines, n);
    ChurnStep(s.churn, lines, n);
    OrderStep(s.orders, lines, n);
    var promptCache, churn, orders := s.promptCache, s.churn, s.orders;
    if lines[n].Some? {
      var r := lines[n].value;
      if r.PromptCache? {
        var stats := if r.model in promptCache then promptCache[r.model] else PromptStats(0, 0, 0, 0);
        promptCache := promptCache[r.model := Add(stats, r)];
      } else if r.Catalog? {
        var stats := if r.model in churn then churn[r.model] else ChurnStats(0, 0, 0, 0, 0);
        churn := churn[r.model := Churn(stats, r.reason)];
        if r.snapshot.Some? {
          var previous := if r.model in orders then Some(orders[r.model]) else None;
          orders := orders[r.model := Reorder(previous, r.snapshot.value)];
        }
      }
    }
    t := s.(promptCache := promptCache, churn := churn, orders := orders);
  }

  /** The summary of a log: every table is the reading of the log it should be,
      and the totals are conserved. */
  method SummarizeTrajectory(lines: seq<Option<Rec>>) returns (summary: Summary)
    ensures TalliesReflect(summary, lines, |lines|)
    ensures TotalsReflect(summary, lines, |lines|)
    ensures TablesReflect(summary, lines, |lines|)
    ensures Sum(summary.classCounts) == summary.totalRoutes == Sum(summary.modelCounts)
    ensures Sum(summary.toolOk) + Sum(summary.toolErr) == summary.totalTools
    ensures |summary.timestamps| ==
            summary.totalRoutes + summary.totalTools + summary.totalPromptRecords + summary.totalChurnRecords
  {
    summary := EMPTY;
    for i := 0 to |lines|
      invariant TalliesReflect(summary, lines, i) && TotalsReflect(summary, lines, i)
      invariant TablesReflect(summary, lines, i)
    {
      summary := Tally(summary, lines, i);
      summary := Total(summary, lines, i);
      summary := Tabulate(summary, lines, i);
    }
    Conservation(summary, lines);
  }

  // ---------- What a record adds ----------

  lemma OneMoreLine(lines: seq<Option<Rec>>, line: Option<Rec>, pick: Pick, key: string)
    ensures CountOf(lines + [line], |lines| + 1, pick, key) ==
            CountOf(lines, |lines|, pick, key) + if pick(line) == Some(key) then 1 else 0
  {
    CountOfStep(lines + [line], |lines|, pick, key);
    CountAppend(lines, line, |lines|, Assigns(pick, key));
  }

  lemma TalliedLonger(s: Summary, lines: seq<Option<Rec>>, line: Option<Rec>, t: Summary, key: string)
    requires TalliesReflect(s, lines, |lines|) && TalliesReflect(t, lines + [line], |lines| + 1)
    ensures Get(t.classCounts, key) == Get(s.classCounts, key) + if ByClass(line) == Some(key) then 1 else 0
    ensures Get(t.modelCounts, key) == Get(s.modelCounts, key) + if ByModel(line) == Some(key) then 1 else 0
    ensures Get(t.toolOk, key) == Get(s.toolOk, key) + if ByOkTool(line) == Some(key) then 1 else 0
    ensures Get(t.toolErr, key) == Get(s.toolErr, key) + if ByErrTool(line) == Some(key) then 1 else 0
  {
    OneMoreLine(lines, line, ByClass, key);
    OneMoreLine(lines, line, ByModel, key);
    OneMoreLine(lines, line, ByOkTool, key);
    OneMoreLine(lines, line, ByErrTool, key);
  }

  /** One more route counts for its class and its model. */
  lemma RouteCounts(s: Summary, lines: seq<Option<Rec>>, model: string, class_: string, ts: int, t: Summary, key: string)
    requires TalliesReflect(s, lines, |lines|)
    requires TalliesReflect(t, lines + [Some(Route(model, class_, ts))], |lines| + 1)
    ensures Get(t.classCounts, key) == Get(s.classCounts, key) + if key == class_ then 1 else 0
    ensures Get(t.modelCounts, key) == Get(s.modelCounts, key) + if key == model then 1 else 0
    ensures Get(t.toolOk, key) == Get(s.toolOk, key) && Get(t.toolErr, key) == Get(s.toolErr, key)
  {
    TalliedLonger(s, lines, Some(Route(model, class_, ts)), t, key);
  }

  /** One more tool call counts among the successes or the failures of its tool. */
  lemma ToolCounts(s: Summary, lines: seq<Option<Rec>>, name: string, ok: bool, ts: int, t: Summary, key: string)
    requires TalliesReflect(s, lines, |lines|)
    requires TalliesReflect(t, lines + [Some(Tool(name, ok, ts))], |lines| + 1)
    ensures Get(t.toolOk, key) == Get(s.toolOk, key) + if ok && key == name then 1 else 0
    ensures Get(t.toolErr, key) == Get(s.toolErr, key) + if !ok && key == name then 1 else 0
    ensures Get(t.classCounts, key) == Get(s.classCounts, key) && Get(t.modelCounts, key) == Get(s.modelCounts, key)
  {
    TalliedLonger(s, lines, Some(Tool(name, ok, ts)), t, key);
  }

  function SumOf(own: seq<Rec>, n: nat, amount: Rec -> nat): nat
    requires n <= |own|
  {
    if n == 0 then 0 else SumOf(own, n - 1, amount) + amount(own[n - 1])
  }

  function PromptTokens(r: Rec): nat { if r.PromptCache? then r.promptTokens else 0 }

  /** The tokens read from the cache, or those cached if that is not recorded. */
  function ReadTokens(r: Rec): nat {
    match r
    case PromptCache(_, _, _, Some(tokens), _, _) => tokens
    case PromptCache(_, _, cached, None, _, _) => cached
    case _ => 0
  }

  function CreationTokens(r: Rec): nat {
    match r
    case PromptCache(_, _, _, _, Some(tokens), _) => tokens
    case _ => 0
  }

  /** A model's prompt statistics are sums over its records, field by field. */
  lemma {:induction false} PromptSums(own: seq<Rec>, n: nat)
    requires n <= |own| && forall i :: 0 <= i < |own| ==> own[i].PromptCache?
    ensures PromptsOf(own, n) == PromptStats(SumOf(own, n, PromptTokens), SumOf(own, n, ReadTokens),
                                             SumOf(own, n, CreationTokens), n)
  {
    if n > 0 {
      PromptSums(own, n - 1);
    }
  }

  /** Which reason counts as what. */
  lemma ChurnReasons(reasons: seq<string>)
    ensures ChurnOf(reasons).model == Count(reasons, |reasons|, Is("model"))
    ensures ChurnOf(reasons).steady == Count(reasons, |reasons|, Is("unchanged"))
    ensures ChurnOf(reasons).stablePrefix == Count(reasons, |reasons|, Is("stable_prefix"))
    ensures ChurnOf(reasons).toolCatalog == Count(reasons, |reasons|, Is("tool_catalog"))
    ensures ChurnOf(reasons).combined == Count(reasons, |reasons|, Is("stable_prefix+tool_catalog"))
  {
  }

  predicate Changed(own: seq<Snapshot>, i: nat) {
    0 < i < |own| && own[i].order != own[i - 1].order
  }

  /** Order changes number the snapshots whose order differs from the one before. */
  lemma {:induction false} ChangesMeaning(own: seq<Snapshot>, n: nat)
    requires n <= |own|
    ensures Changes(own, n) == |set i: nat | i < n && Changed(own, i)|
  {
    if n > 0 {
      ChangesMeaning(own, n - 1);
      var fewer, more := set i: nat | i < n - 1 && Changed(own, i), set i: nat | i < n && Changed(own, i);
      assert more == if Changed(own, n - 1) then fewer + {n - 1} else fewer;
    }
  }

  lemma {:induction false} SnapshotsBefore(lines: seq<Option<Rec>>, line: Option<Rec>, n: nat, model: string)
    requires n <= |lines|
    ensures OwnSnapshots(lines + [line], n, model) == OwnSnapshots(lines, n, model)
  {
    if n > 0 {
      SnapshotsBefore(lines, line, n - 1, model);
    }
  }

  lemma SnapshotsAfter(lines: seq<Option<Rec>>, r: Rec, model: string)
    requires r.Catalog? && r.snapshot.Some?
    ensures OwnSnapshots(lines + [Some(r)], |lines| + 1, model) ==
            if r.model == model then OwnSnapshots(lines, |lines|, model) + [r.snapshot.value]
            else OwnSnapshots(lines, |lines|, model)
  {
    SnapshotsBefore(lines, Some(r), |lines|, model);
  }

  lemma SnapshotEntry(m: map<string, OrderStats>, lines: seq<Option<Rec>>, r: Rec, t: map<string, OrderStats>, key: string)
    requires r.Catalog? && r.snapshot.Some?
    requires OrderTable(m, lines, |lines|) && OrderTable(t, lines + [Some(r)], |lines| + 1)
    ensures var own := OwnSnapshots(lines, |lines|, key);
            && Lookup(m, key) == (if own == [] then None else Some(OrdersOf(own)))
            && Lookup(t, key) == (if key == r.model then Some(OrdersOf(own + [r.snapshot.value])) else Lookup(m, key))
  {
    SnapshotsAfter(lines, r, key);
    OrderEntry(m, lines, key);
    OrderEntry(t, lines + [Some(r)], key);
  }

  /** One more snapshot becomes its model's last, and other models keep their entries. */
  lemma SnapshotRecord(m: map<string, OrderStats>, lines: seq<Option<Rec>>, r: Rec, s: Snapshot,
                       t: map<string, OrderStats>, key: string)
    requires r.Catalog? && r.snapshot == Some(s)
    requires OrderTable(m, lines, |lines|) && OrderTable(t, lines + [Some(r)], |lines| + 1)
    ensures key != r.model ==> Lookup(t, key) == Lookup(m, key)
    ensures r.model in t && t[r.model].last == s
    ensures var skilled := if s.hasActiveSkills then 1 else 0;
            if r.model !in m then t[r.model] == OrderStats(1, 0, s, skilled)
            else
              var p := m[r.model];
              var changed := if p.last.order != s.order then 1 else 0;
              t[r.model] == OrderStats(p.snapshots + 1, p.orderChanges + changed, s, p.activeSkillSnapshots + skilled)
  {
    SnapshotEntry(m, lines, r, t, key);
    SnapshotEntry(m, lines, r, t, r.model);
    ReorderSnoc(OwnSnapshots(lines, |lines|, r.model), s);
  }

  lemma {:induction false} StampsBefore(lines: seq<Option<Rec>>, line: Option<Rec>, n: nat)
    requires n <= |lines|
    ensures Stamps(lines + [line], n) == Stamps(lines, n)
  {
    if n > 0 {
      StampsBefore(lines, line, n - 1);
    }
  }

  lemma OneMorePicked(lines: seq<Option<Rec>>, line: Option<Rec>, pick: Pick)
    ensures Picked(lines + [line], |lines| + 1, pick) ==
            Picked(lines, |lines|, pick) + if pick(line).Some? then 1 else 0
  {
    PickedStep(lines + [line], |lines|, pick);
    CountAppend(lines, line, |lines|, Takes(pick));
  }

  /** One more record raises the total of its own kind and adds its timestamp. */
  lemma RecordTotals(s: Summary, lines: seq<Option<Rec>>, r: Rec, t: Summary)
    requires TotalsReflect(s, lines, |lines|) && TotalsReflect(t, lines + [Some(r)], |lines| + 1)
    ensures t.totalRoutes == s.totalRoutes + if r.Route? then 1 else 0
    ensures t.totalTools == s.totalTools + if r.Tool? then 1 else 0
    ensures t.totalPromptRecords == s.totalPromptRecords + if r.PromptCache? then 1 else 0
    ensures t.totalChurnRecords == s.totalChurnRecords + if r.Catalog? then 1 else 0
    ensures t.timestamps == s.timestamps + [r.ts]
  {
    OneMorePicked(lines, Some(r), ByClass);
    OneMorePicked(lines, Some(r), ByOkTool);
    OneMorePicked(lines, Some(r), ByErrTool);
    OneMorePicked(lines, Some(r), ByPrompt);
    OneMorePicked(lines, Some(r), ByCatalog);
    StampsBefore(lines, Some(r), |lines|);
  }

  // ---------- Projection ----------

  /** A line that is a record of another model, or of another kind. */
  predicate Elsewhere(line: Option<Rec>, model: string) {
    line.None? || line.value.Route? || line.value.Tool? || line.value.model != model
  }

  /** The records of a model among the first `n` lines. */
  function Own(lines: seq<Option<Rec>>, n: nat, model: string): seq<Option<Rec>>
    requires n <= |lines|
  {
    if n == 0 then []
    else if Elsewhere(lines[n - 1], model) then Own(lines, n - 1, model)
    else Own(lines, n - 1, model) + [lines[n - 1]]
  }

  /** Dropping all other lines leaves what the model's tables are computed from. */
  lemma {:induction false} OwnRecordsOnly(lines: seq<Option<Rec>>, n: nat, model: string)
    requires n <= |lines|
    ensures SameOwn(Own(lines, n, model), |Own(lines, n, model)|, lines, n, model)
  {
    if n > 0 {
      OwnRecordsOnly(lines, n - 1, model);
      if !Elsewhere(lines[n - 1], model) {
        OwnStep(Own(lines, n - 1, model), lines, n - 1, model);
      }
    }
  }

  lemma PromptEntry(m: map<string, PromptStats>, lines: seq<Option<Rec>>, model: string)
    requires PromptTable(m, lines, |lines|)
    ensures var own := OwnPrompts(lines, |lines|, model);
            Lookup(m, model) == if own == [] then None else Some(PromptsOf(own, |own|))
  {
  }

  lemma ChurnEntry(m: map<string, ChurnStats>, lines: seq<Option<Rec>>, model: string)
    requires ChurnTable(m, lines, |lines|)
    ensures var own := OwnReasons(lines, |lines|, model);
            Lookup(m, model) == if own == [] then None else Some(ChurnOf(own))
  {
  }

  lemma OrderEntry(m: map<string, OrderStats>, lines: seq<Option<Rec>>, model: string)
    requires OrderTable(m, lines, |lines|)
    ensures var own := OwnSnapshots(lines, |lines|, model);
            Lookup(m, model) == if own == [] then None else Some(OrdersOf(own))
  {
  }

  lemma SameOwnReadings(a: seq<Option<Rec>>, b: seq<Option<Rec>>, model: string)
    requires Own(a, |a|, model) == Own(b, |b|, model)
    ensures SameOwn(a, |a|, b, |b|, model)
  {
    OwnRecordsOnly(a, |a|, model);
    OwnRecordsOnly(b, |b|, model);
  }

  /** A model's entries depend on its own records only: the summaries of two logs
      that agree on them agree on the model, whatever else the logs hold. */
  lemma EntriesDependOnOwnRecords(s: Summary, a: seq<Option<Rec>>, t: Summary, b: seq<Option<Rec>>, model: string)
    requires TablesReflect(s, a, |a|) && TablesReflect(t, b, |b|)
    requires Own(a, |a|, model) == Own(b, |b|, model)
    ensures Lookup(s.promptCache, model) == Lookup(t.promptCache, model)
    ensures Lookup(s.churn, model) == Lookup(t.churn, model)
    ensures Lookup(s.orders, model) == Lookup(t.orders, model)
  {
    SameOwnReadings(a, b, model);
    PromptEntry(s.promptCache, a, model);
    PromptEntry(t.promptCache, b, model);
    ChurnEntry(s.churn, a, model);
    ChurnEntry(t.churn, b, model);
    OrderEntry(s.orders, a, model);
    OrderEntry(t.orders, b, model);
  }

  /** Two logs hold the same records of a model. */
  predicate SameOwn(a: seq<Option<Rec>>, m: nat, b: seq<Option<Rec>>, n: nat, model: string)
    requires m <= |a| && n <= |b|
  {
    && OwnPrompts(a, m, model) == OwnPrompts(b, n, model)
    && OwnReasons(a, m, model) == OwnReasons(b, n, model)
    && OwnSnapshots(a, m, model) == OwnSnapshots(b, n, model)
  }

  lemma OwnStep(own: seq<Option<Rec>>, lines: seq<Option<Rec>>, n: nat, model: string)
    requires n < |lines| && SameOwn(own, |own|, lines, n, model)
    ensures SameOwn(own + [lines[n]], |own| + 1, lines, n + 1, model)
  {
    OwnPrefix(own, lines[n], |own|, model);
  }

  lemma {:induction false} OwnPrefix(lines: seq<Option<Rec>>, more: Option<Rec>, n: nat, model: string)
    requires n <= |lines|
    ensures SameOwn(lines + [more], n, lines, n, model)
  {
    if n > 0 {
      OwnPrefix(lines, more, n - 1, model);
    }
  }
}
