/** Whole runs of the MCP startup tracker. */
module McpStartupRuns {
  import opened Names
  import opened McpStartup

  /** The phase after feeding the first `n` events, in order, to a tracker in phase `p`. */
  ghost function Run(expected: Option<set<string>>, p: Phase, trace: seq<Event>, n: nat): Phase
    requires n <= |trace|
  {
    if n == 0 then p else Advance(expected, Run(expected, p, trace, n - 1), trace[n - 1])
  }

  /** What event `i` makes the tracker say. */
  ghost function Output(expected: Option<set<string>>, p: Phase, trace: seq<Event>): nat -> seq<Message> {
    (i: nat) => if i < |trace| then Emitted(expected, Run(expected, p, trace, i), trace[i]) else []
  }

  function Chain<T>(parts: nat -> seq<T>, n: nat): seq<T> {
    if n == 0 then [] else Chain(parts, n - 1) + parts(n - 1)
  }

  ghost function MessagesUpTo(expected: Option<set<string>>, p: Phase, trace: seq<Event>, n: nat): seq<Message>
    requires n <= |trace|
  {
    Chain(Output(expected, p, trace), n)
  }

  ghost function Final(expected: Option<set<string>>, p: Phase, trace: seq<Event>): Phase {
    Run(expected, p, trace, |trace|)
  }

  ghost function Messages(expected: Option<set<string>>, p: Phase, trace: seq<Event>): seq<Message> {
    MessagesUpTo(expected, p, trace, |trace|)
  }

  lemma {:induction false} RunPrefix(expected: Option<set<string>>, p: Phase, a: seq<Event>, b: seq<Event>, n: nat)
    requires n <= |a| && a <= b
    ensures Run(expected, p, a, n) == Run(expected, p, b, n)
  {
    if n > 0 {
      RunPrefix(expected, p, a, b, n - 1);
      assert a[n - 1] == b[n - 1];
    }
  }

  lemma {:induction false} ChainsAgree<T>(f: nat -> seq<T>, g: nat -> seq<T>, n: nat)
    requires forall i :: 0 <= i < n ==> f(i) == g(i)
    ensures Chain(f, n) == Chain(g, n)
  {
    if n > 0 {
      ChainsAgree(f, g, n - 1);
    }
  }

  lemma OutputPrefix(expected: Option<set<string>>, p: Phase, a: seq<Event>, b: seq<Event>, n: nat)
    requires n < |a| && a <= b
    ensures Output(expected, p, a)(n) == Output(expected, p, b)(n)
  {
    RunPrefix(expected, p, a, b, n);
    assert a[n] == b[n];
  }

  lemma MessagesPrefix(expected: Option<set<string>>, p: Phase, a: seq<Event>, b: seq<Event>)
    requires a <= b
    ensures MessagesUpTo(expected, p, b, |a|) == Messages(expected, p, a)
  {
    forall i | 0 <= i < |a| ensures Output(expected, p, a)(i) == Output(expected, p, b)(i) {
      OutputPrefix(expected, p, a, b, i);
    }
    ChainsAgree(Output(expected, p, a), Output(expected, p, b), |a|);
  }

  lemma ChainStep<T>(parts: nat -> seq<T>, n: nat)
    ensures Chain(parts, n + 1) == Chain(parts, n) + parts(n)
  {
  }

  lemma {:induction false} LastOutput(expected: Option<set<string>>, p: Phase, front: seq<Event>, e: Event)
    ensures Final(expected, p, front + [e]) == Advance(expected, Final(expected, p, front), e)
    ensures Output(expected, p, front + [e])(|front|) == Emitted(expected, Final(expected, p, front), e)
  {
    RunPrefix(expected, p, front, front + [e], |front|);
  }

  lemma {:induction false} FinalSnoc(expected: Option<set<string>>, p: Phase, front: seq<Event>, e: Event)
    ensures var q := Final(expected, p, front);
            && Final(expected, p, front + [e]) == Advance(expected, q, e)
            && Messages(expected, p, front + [e]) == Messages(expected, p, front) + Emitted(expected, q, e)
  {
    var longer := front + [e];
    calc {
      Messages(expected, p, longer);
      Chain(Output(expected, p, longer), |front| + 1);
      { ChainStep(Output(expected, p, longer), |front|); }
      MessagesUpTo(expected, p, longer, |front|) + Output(expected, p, longer)(|front|);
      { MessagesPrefix(expected, p, front, longer); }
      Messages(expected, p, front) + Output(expected, p, longer)(|front|);
      { LastOutput(expected, p, front, e); }
      Messages(expected, p, front) + Emitted(expected, Final(expected, p, front), e);
    }
    LastOutput(expected, p, front, e);
  }

  predicate Resets(p: Phase, e: Event) {
    p.finished && e.Report? && e.update.status.Starting?
  }

  // ---------- Reachable phases ----------

  /** A reachable round that is still open has not settled, and a finished one is not empty. */
  lemma {:induction false} OpenRoundsHaveNotSettled(expected: Option<set<string>>, trace: seq<Event>, n: nat)
    requires n <= |trace|
    ensures var p := Run(expected, FRESH, trace, n);
            && (!p.finished ==> !Settled(expected, p.round))
            && (p.finished ==> p.round != [])
  {
    if n > 0 {
      OpenRoundsHaveNotSettled(expected, trace, n - 1);
    }
  }

  /** The updates reported in events `from` up to `to`. */
  function UpdatesIn(trace: seq<Event>, from: nat, to: nat): seq<Update>
    requires from <= to <= |trace|
  {
    if from == to then []
    else if trace[to - 1].Report? then UpdatesIn(trace, from, to - 1) + [trace[to - 1].update]
    else UpdatesIn(trace, from, to - 1)
  }

  /** Events `from` up to `to` make up the round that is current after `n` events. */
  ghost predicate RoundStretch(expected: Option<set<string>>, trace: seq<Event>, n: nat, from: nat, to: nat)
    requires n <= |trace|
  {
    var p := Run(expected, FRESH, trace, n);
    && from <= to <= n
    && p.round == UpdatesIn(trace, from, to)
    && (from == 0 || (from < to && Resets(Run(expected, FRESH, trace, from), trace[from])))
    && (!p.finished ==> to == n)
    && (forall i :: to <= i < n ==> trace[i].Lag? || !trace[i].update.status.Starting?)
  }

  /** A reset starts a new stretch. */
  lemma StretchRestarts(expected: Option<set<string>>, trace: seq<Event>, n: nat)
    requires n < |trace| && Resets(Run(expected, FRESH, trace, n), trace[n])
    ensures RoundStretch(expected, trace, n + 1, n, n + 1)
  {
    var u := trace[n].update;
    assert UpdatesIn(trace, n, n) == [];
    assert UpdatesIn(trace, n, n + 1) == UpdatesIn(trace, n, n) + [u];
    assert Run(expected, FRESH, trace, n + 1).round == [] + [u];
  }

  /** An event in an open round lengthens the stretch. */
  lemma StretchGrows(expected: Option<set<string>>, trace: seq<Event>, n: nat, from: nat)
    requires n < |trace| && !Run(expected, FRESH, trace, n).finished && RoundStretch(expected, trace, n, from, n)
    ensures RoundStretch(expected, trace, n + 1, from, n + 1)
  {
    var p := Run(expected, FRESH, trace, n);
    assert Run(expected, FRESH, trace, n + 1) == Advance(expected, p, trace[n]);
    assert UpdatesIn(trace, from, n + 1) ==
           UpdatesIn(trace, from, n) + if trace[n].Report? then [trace[n].update] else [];
  }

  /** After the finish, all but a reset is stale. */
  lemma StretchStays(expected: Option<set<string>>, trace: seq<Event>, n: nat, from: nat, to: nat)
    requires n < |trace| && Run(expected, FRESH, trace, n).finished
    requires !Resets(Run(expected, FRESH, trace, n), trace[n]) && RoundStretch(expected, trace, n, from, to)
    ensures RoundStretch(expected, trace, n + 1, from, to)
  {
    var p := Run(expected, FRESH, trace, n);
    assert Run(expected, FRESH, trace, n + 1) == Advance(expected, p, trace[n]) == p;
  }

  /** The current round is everything reported since the last reset, up to the
      finish; all that came after the finish was stale. */
  lemma {:induction false} RoundIsAStretchOfTheRun(expected: Option<set<string>>, trace: seq<Event>, n: nat)
    returns (from: nat, to: nat)
    requires n <= |trace|
    ensures RoundStretch(expected, trace, n, from, to)
  {
    if n == 0 {
      from, to := 0, 0;
    } else {
      from, to := RoundIsAStretchOfTheRun(expected, trace, n - 1);
      var p := Run(expected, FRESH, trace, n - 1);
      if Resets(p, trace[n - 1]) {
        StretchRestarts(expected, trace, n - 1);
        from, to := n - 1, n;
      } else if p.finished {
        StretchStays(expected, trace, n - 1, from, to);
      } else {
        StretchGrows(expected, trace, n - 1, from);
        to := n;
      }
    }
  }

  /** Updates alone do not finish a round in which nothing has started. */
  lemma {:induction false} NothingStarted(expected: Option<set<string>>, updates: seq<Update>, n: nat)
    requires n <= |updates| && forall i :: 0 <= i < n ==> !updates[i].status.Starting?
    ensures Run(expected, FRESH, Reports(updates), n) == Phase(updates[..n], false)
  {
    if n > 0 {
      NothingStarted(expected, updates, n - 1);
      SnocPrefix(updates, n - 1);
      assert !SawStarting(updates[..n]);
    }
  }

  // ---------- Accounting ----------

  ghost function Summaries(expected: Option<set<string>>, trace: seq<Event>, n: nat): nat
    requires n <= |trace|
  {
    if n == 0 then 0
    else
      Summaries(expected, trace, n - 1) +
      if Summarizes(expected, Run(expected, FRESH, trace, n - 1), trace[n - 1]) then 1 else 0
  }

  ghost function ResetCount(expected: Option<set<string>>, trace: seq<Event>, n: nat): nat
    requires n <= |trace|
  {
    if n == 0 then 0
    else ResetCount(expected, trace, n - 1) + if Resets(Run(expected, FRESH, trace, n - 1), trace[n - 1]) then 1 else 0
  }

  /** One summary per round: every round but an open last one is summarised exactly once. */
  lemma {:induction false} OneSummaryPerRound(expected: Option<set<string>>, trace: seq<Event>, n: nat)
    requires n <= |trace|
    ensures Summaries(expected, trace, n) ==
            ResetCount(expected, trace, n) + if Run(expected, FRESH, trace, n).finished then 1 else 0
  {
    if n > 0 {
      OneSummaryPerRound(expected, trace, n - 1);
      OpenRoundsHaveNotSettled(expected, trace, n - 1);
      if Resets(Run(expected, FRESH, trace, n - 1), trace[n - 1]) {
        StartingDoesNotSettle(expected, trace[n - 1].update);
      }
    }
  }

  lemma StartingDoesNotSettle(expected: Option<set<string>>, u: Update)
    requires u.status.Starting?
    ensures !Settled(expected, [] + [u])
  {
    ReportedSnoc([], u);
    assert u.server in Participants(expected, [] + [u]);
  }

  /** How often the run has warned about `server` since the last reset. */
  ghost function WarningsThisRound(expected: Option<set<string>>, trace: seq<Event>, n: nat, server: string): nat
    requires n <= |trace|
  {
    if n == 0 then 0
    else
      var p := Run(expected, FRESH, trace, n - 1);
      var e := trace[n - 1];
      (if Resets(p, e) then 0 else WarningsThisRound(expected, trace, n - 1, server)) +
      (if e.Report? && !Stale(p, e.update) && e.update.server == server
       then |Warning(Before(p), e.update)| else 0)
  }

  /** In every round a server is warned about exactly once if it failed, else never. */
  lemma {:induction false} WarnedOncePerRound(expected: Option<set<string>>, trace: seq<Event>, n: nat, server: string)
    requires n <= |trace|
    ensures WarningsThisRound(expected, trace, n, server) ==
            if server in FailedOnce(Run(expected, FRESH, trace, n).round) then 1 else 0
  {
    if n > 0 {
      WarnedOncePerRound(expected, trace, n - 1, server);
      var p := Run(expected, FRESH, trace, n - 1);
      if trace[n - 1].Report? {
        ReportedSnoc(Before(p), trace[n - 1].update);
      }
    }
  }

  /** A finished tracker that sees a Starting update goes on exactly as a fresh one. */
  lemma {:induction false} RestartForgets(expected: Option<set<string>>, p: Phase, trace: seq<Event>, n: nat)
    requires p.finished && 0 < n <= |trace| && Resets(p, trace[0])
    ensures Run(expected, p, trace, n) == Run(expected, FRESH, trace, n)
    ensures MessagesUpTo(expected, p, trace, n) == MessagesUpTo(expected, FRESH, trace, n)
  {
    if n == 1 {
      assert Run(expected, p, trace, 0) == p && Run(expected, FRESH, trace, 0) == FRESH;
    } else {
      RestartForgets(expected, p, trace, n - 1);
    }
  }

  lemma {:induction false} StaleKeepsThePhase(expected: Option<set<string>>, p: Phase, trace: seq<Event>, n: nat)
    requires p.finished && n <= |trace|
    requires forall i :: 0 <= i < n ==> trace[i].Lag? || Stale(p, trace[i].update)
    ensures Run(expected, p, trace, n) == p
  {
    if n > 0 {
      StaleKeepsThePhase(expected, p, trace, n - 1);
    }
  }

  lemma {:induction false} SilentChain<T>(parts: nat -> seq<T>, n: nat)
    requires forall i :: 0 <= i < n ==> parts(i) == []
    ensures Chain(parts, n) == []
  {
    if n > 0 {
      SilentChain(parts, n - 1);
    }
  }

  /** After a finish nothing but a Starting update has any effect. */
  lemma StaleUpdatesChangeNothing(expected: Option<set<string>>, p: Phase, trace: seq<Event>)
    requires p.finished
    requires forall i :: 0 <= i < |trace| ==> trace[i].Lag? || Stale(p, trace[i].update)
    ensures Final(expected, p, trace) == p
    ensures Messages(expected, p, trace) == []
  {
    forall i | 0 <= i <= |trace|
      ensures Run(expected, p, trace, i) == p && Output(expected, p, trace)(i) == []
    {
      StaleKeepsThePhase(expected, p, trace, i);
    }
    SilentChain(Output(expected, p, trace), |trace|);
  }

  // ---------- What a summary says ----------

  function ReadyServers(expected: Option<set<string>>, round: seq<Update>): set<string> {
    set s | s in Participants(expected, round) && LastStatus(round, s) == Some(Ready)
  }

  /** A summary splits the participants into ready, failed and interrupted; a
      finish reached by an update interrupts only servers that were cancelled. */
  lemma SummaryPartitions(expected: Option<set<string>>, p: Phase, e: Event)
    requires Summarizes(expected, p, e)
    ensures var round := Advance(expected, p, e).round;
            var ready, failed, interrupted :=
              ReadyServers(expected, round), FailedServers(expected, round), InterruptedServers(expected, round);
            && ready + failed + interrupted == Participants(expected, round)
            && ready !! failed && ready !! interrupted && failed !! interrupted
            && (e.Report? ==>
                  forall s :: s in interrupted ==> LastStatus(round, s) == Some(Cancelled))
  {
    var round := Advance(expected, p, e).round;
    forall s | s in Participants(expected, round)
      ensures s in ReadyServers(expected, round) + FailedServers(expected, round) + InterruptedServers(expected, round)
    {
      var status := LastStatus(round, s);
      if status.Some? && status.value.Ready? {
        assert status == Some(Ready);
      }
    }
  }

  // ---------- Interleaving independence ----------

  /** The updates of one server among the first `n`, in order. */
  function OfServer(updates: seq<Update>, n: nat, server: string): seq<Update>
    requires n <= |updates|
  {
    if n == 0 then []
    else if updates[n - 1].server == server then OfServer(updates, n - 1, server) + [updates[n - 1]]
    else OfServer(updates, n - 1, server)
  }

  lemma {:induction false} OfServerGrows(updates: seq<Update>, k: nat, n: nat, server: string)
    requires k <= n <= |updates|
    ensures OfServer(updates, k, server) <= OfServer(updates, n, server)
  {
    if k < n {
      OfServerGrows(updates, k, n - 1, server);
    }
  }

  lemma {:induction false} LastOfServer(updates: seq<Update>, n: nat, server: string)
    requires n <= |updates|
    ensures var own := OfServer(updates, n, server);
            LastStatus(updates[..n], server) == if own == [] then None else Some(own[|own| - 1].status)
  {
    if n > 0 {
      LastOfServer(updates, n - 1, server);
      assert updates[..n][..n - 1] == updates[..n - 1];
    }
  }

  /** `updates` interleaves, over exactly the servers of `outcome`, the
      sequences Starting-then-outcome. */
  ghost predicate Interleaves(updates: seq<Update>, outcome: map<string, Status>) {
    && (forall i :: 0 <= i < |updates| ==> updates[i].server in outcome)
    && (forall s :: s in outcome ==>
          && !outcome[s].Starting?
          && OfServer(updates, |updates|, s) == [Update(s, Starting), Update(s, outcome[s])])
  }

  function Reports(updates: seq<Update>): (trace: seq<Event>)
    ensures |trace| == |updates|
    ensures forall i :: 0 <= i < |updates| ==> trace[i] == Report(updates[i])
  {
    seq(|updates|, i requires 0 <= i < |updates| => Report(updates[i]))
  }

  /** Part of an interleaving: each server has said nothing, has started, or is done. */
  lemma PrefixOwn(updates: seq<Update>, outcome: map<string, Status>, k: nat, s: string)
    requires Interleaves(updates, outcome) && k <= |updates| && s in outcome
    ensures OfServer(updates, k, s) <= [Update(s, Starting), Update(s, outcome[s])]
    ensures Terminal(LastStatus(updates[..k], s)) <==> |OfServer(updates, k, s)| == 2
    ensures k < |updates| && updates[k].server == s ==> |OfServer(updates, k, s)| < 2
  {
    OfServerGrows(updates, k, |updates|, s);
    LastOfServer(updates, k, s);
    if k < |updates| {
      OfServerGrows(updates, k + 1, |updates|, s);
    }
  }

  lemma FirstIsStarting(updates: seq<Update>, outcome: map<string, Status>, k: nat)
    requires Interleaves(updates, outcome) && 0 < k <= |updates|
    ensures SawStarting(updates[..k])
  {
    var s := updates[0].server;
    OfServerGrows(updates, 1, |updates|, s);
    assert OfServer(updates, 1, s) == OfServer(updates, 0, s) + [updates[0]] == [updates[0]];
    assert updates[0] == OfServer(updates, |updates|, s)[0] == Update(s, Starting);
    assert updates[..k][0].status.Starting?;
  }

  lemma PrefixHasNotSettled(updates: seq<Update>, outcome: map<string, Status>, k: nat)
    requires Interleaves(updates, outcome) && k < |updates|
    ensures !Settled(Some(outcome.Keys), updates[..k])
  {
    var s := updates[k].server;
    PrefixOwn(updates, outcome, k, s);
    assert s in Participants(Some(outcome.Keys), updates[..k]);
  }

  lemma {:induction false} WholeInterleavingSettles(updates: seq<Update>, outcome: map<string, Status>)
    requires Interleaves(updates, outcome) && outcome.Keys != {}
    ensures updates != []
    ensures Settled(Some(outcome.Keys), updates)
    ensures Participants(Some(outcome.Keys), updates) == outcome.Keys
    ensures forall s :: s in outcome ==> LastStatus(updates, s) == Some(outcome[s])
  {
    var s :| s in outcome.Keys;
    assert OfServer(updates, |updates|, s) != OfServer(updates, 0, s);
    assert updates[..|updates|] == updates;
    FirstIsStarting(updates, outcome, |updates|);
    forall s | s in outcome ensures LastStatus(updates, s) == Some(outcome[s]) {
      LastOfServer(updates, |updates|, s);
    }
  }

  lemma {:induction false} UnfinishedPrefix(updates: seq<Update>, outcome: map<string, Status>, k: nat)
    requires Interleaves(updates, outcome) && k < |updates|
    ensures Run(Some(outcome.Keys), FRESH, Reports(updates), k) == Phase(updates[..k], false)
  {
    forall j | 0 < j <= k ensures !AllAnswered(Some(outcome.Keys), updates, j) {
      PrefixHasNotSettled(updates, outcome, j);
      SettledIffAllAnswered(Some(outcome.Keys), updates, outcome, j);
    }
    OpenUntil(Some(outcome.Keys), updates, outcome, k);
  }

  /** The summary of a round in which every server ended as `outcome` says. */
  function OutcomeSummary(outcome: map<string, Status>): seq<Message> {
    SummaryMessages(Sorted(set s | s in outcome && outcome[s].Cancelled?),
                    Sorted(set s | s in outcome && outcome[s].Failed?))
  }

  lemma {:induction false} InterleavingSummary(updates: seq<Update>, outcome: map<string, Status>)
    requires outcome.Keys != {} && Interleaves(updates, outcome)
    ensures Summary(Some(outcome.Keys), updates) == OutcomeSummary(outcome)
  {
    WholeInterleavingSettles(updates, outcome);
    assert InterruptedServers(Some(outcome.Keys), updates) == set s | s in outcome && outcome[s].Cancelled?;
    assert FailedServers(Some(outcome.Keys), updates) == set s | s in outcome && outcome[s].Failed?;
  }

  /** An interleaving is summarised at its last step and nowhere before. */
  lemma {:induction false} SummarizesLast(updates: seq<Update>, outcome: map<string, Status>, k: nat)
    requires outcome.Keys != {} && Interleaves(updates, outcome) && k < |updates|
    ensures Settled(Some(outcome.Keys), updates[..k] + [updates[k]]) <==> k == |updates| - 1
  {
    SnocPrefix(updates, k);
    if k + 1 < |updates| {
      PrefixHasNotSettled(updates, outcome, k + 1);
    } else {
      assert updates[..k + 1] == updates;
      WholeInterleavingSettles(updates, outcome);
    }
  }

  /** What an update in an open round makes the tracker say. */
  lemma {:induction false} OpenOutput(expected: Option<set<string>>, round: seq<Update>, u: Update)
    ensures Summarizes(expected, Phase(round, false), Report(u)) <==> Settled(expected, round + [u])
    ensures Emitted(expected, Phase(round, false), Report(u)) ==
            Warning(round, u) + if Settled(expected, round + [u]) then Summary(expected, round + [u]) else []
  {
  }

  /** The output at step `k` of an interleaving, from the round before it. */
  lemma {:induction false} InterleavingOutput(updates: seq<Update>, outcome: map<string, Status>, k: nat)
    requires outcome.Keys != {} && Interleaves(updates, outcome) && k < |updates|
    ensures var expected, p := Some(outcome.Keys), Phase(updates[..k], false);
            && (Summarizes(expected, p, Report(updates[k])) <==> k == |updates| - 1)
            && Emitted(expected, p, Report(updates[k])) ==
               Warning(updates[..k], updates[k]) + if k == |updates| - 1 then OutcomeSummary(outcome) else []
  {
    SummarizesLast(updates, outcome, k);
    OpenOutput(Some(outcome.Keys), updates[..k], updates[k]);
    if k == |updates| - 1 {
      assert updates[..k] + [updates[k]] == updates;
      InterleavingSummary(updates, outcome);
    }
  }

  /** The output at step `k` of an interleaving. */
  lemma {:induction false} InterleavingStep(updates: seq<Update>, outcome: map<string, Status>, k: nat)
    requires outcome.Keys != {} && Interleaves(updates, outcome) && k < |updates|
    ensures var expected, trace := Some(outcome.Keys), Reports(updates);
            var p := Run(expected, FRESH, trace, k);
            && !p.finished
            && (Summarizes(expected, p, trace[k]) <==> k == |trace| - 1)
            && Emitted(expected, p, trace[k]) ==
               Warning(updates[..k], updates[k]) + if k == |trace| - 1 then OutcomeSummary(outcome) else []
  {
    var trace := Reports(updates);
    UnfinishedPrefix(updates, outcome, k);
    InterleavingOutput(updates, outcome, k);
    assert trace[k] == Report(updates[k]);
  }

  /** The output over a whole interleaving: the warnings, one for each failed
      server where it failed, and the summary at the end. */
  ghost predicate FinishesAtTheEnd(updates: seq<Update>, outcome: map<string, Status>) {
    var expected, trace, n := Some(outcome.Keys), Reports(updates), |updates|;
    && n > 0
    && (forall k :: 0 <= k < n ==> !Run(expected, FRESH, trace, k).finished)
    && Run(expected, FRESH, trace, n) == Phase(updates, true)
    && (forall k :: 0 <= k < n ==>
          Emitted(expected, Run(expected, FRESH, trace, k), trace[k]) ==
          Warning(updates[..k], updates[k]) + if k == n - 1 then OutcomeSummary(outcome) else [])
  }

  /** A round that settles with its last update has just finished. */
  lemma {:induction false} LastUpdateFinishes(expected: Option<set<string>>, updates: seq<Update>, n: nat)
    requires n + 1 == |updates| && Settled(expected, updates)
    requires Run(expected, FRESH, Reports(updates), n) == Phase(updates[..n], false)
    ensures Run(expected, FRESH, Reports(updates), n + 1) == Phase(updates, true)
  {
    assert updates[..n] + [updates[n]] == updates;
    assert Reports(updates)[n] == Report(updates[n]);
  }

  lemma {:induction false} InterleavingEnds(updates: seq<Update>, outcome: map<string, Status>)
    requires outcome.Keys != {} && Interleaves(updates, outcome)
    ensures updates != []
    ensures Run(Some(outcome.Keys), FRESH, Reports(updates), |updates|) == Phase(updates, true)
  {
    WholeInterleavingSettles(updates, outcome);
    UnfinishedPrefix(updates, outcome, |updates| - 1);
    LastUpdateFinishes(Some(outcome.Keys), updates, |updates| - 1);
  }

  /** Whatever the interleaving, the round finishes at the very last event and
      not before, and the summary depends only on the servers' outcomes. */
  lemma {:induction false} InterleavingIndependence(updates: seq<Update>, outcome: map<string, Status>)
    requires outcome.Keys != {} && Interleaves(updates, outcome)
    ensures FinishesAtTheEnd(updates, outcome)
  {
    InterleavingEnds(updates, outcome);
    forall k | 0 <= k < |updates|
      ensures var p := Run(Some(outcome.Keys), FRESH, Reports(updates), k);
              && !p.finished
              && Emitted(Some(outcome.Keys), p, Reports(updates)[k]) ==
                 Warning(updates[..k], updates[k]) + if k == |updates| - 1 then OutcomeSummary(outcome) else []
    {
      InterleavingStep(updates, outcome, k);
    }
  }

  // ---------- Any expected set ----------

  /** Every server heard of among the first `n` updates, and every expected one,
      has started and answered. */
  ghost predicate AllAnswered(expected: Option<set<string>>, updates: seq<Update>, n: nat)
    requires n <= |updates|
  {
    && (forall i :: 0 <= i < n ==> |OfServer(updates, n, updates[i].server)| == 2)
    && (expected.Some? ==> forall s :: s in expected.value ==> |OfServer(updates, n, s)| == 2)
  }

  lemma AllParticipantsAnswered(expected: Option<set<string>>, updates: seq<Update>, n: nat)
    requires n <= |updates|
    ensures AllAnswered(expected, updates, n) <==>
            forall s :: s in Participants(expected, updates[..n]) ==> |OfServer(updates, n, s)| == 2
  {
    var prefix := updates[..n];
    forall i | 0 <= i < n ensures updates[i].server in Participants(expected, prefix) {
      assert prefix[i].server in Reported(prefix);
    }
    forall s | s in Reported(prefix) ensures exists i :: 0 <= i < n && updates[i].server == s {
      var i :| 0 <= i < |prefix| && prefix[i].server == s;
      assert updates[i].server == s;
    }
  }

  lemma {:induction false} StrangerSilent(updates: seq<Update>, outcome: map<string, Status>, k: nat, s: string)
    requires Interleaves(updates, outcome) && k <= |updates| && s !in outcome
    ensures OfServer(updates, k, s) == []
  {
    if k > 0 {
      StrangerSilent(updates, outcome, k - 1, s);
    }
  }

  lemma SettledIffAllAnswered(expected: Option<set<string>>, updates: seq<Update>, outcome: map<string, Status>, k: nat)
    requires Interleaves(updates, outcome) && 0 < k <= |updates|
    ensures Settled(expected, updates[..k]) <==> AllAnswered(expected, updates, k)
  {
    FirstIsStarting(updates, outcome, k);
    AllParticipantsAnswered(expected, updates, k);
    forall s | s in Participants(expected, updates[..k])
      ensures Terminal(LastStatus(updates[..k], s)) <==> |OfServer(updates, k, s)| == 2
    {
      if s in outcome {
        PrefixOwn(updates, outcome, k, s);
      } else {
        StrangerSilent(updates, outcome, k, s);
        LastOfServer(updates, k, s);
      }
    }
  }

  lemma {:induction false} OpenUntil(expected: Option<set<string>>, updates: seq<Update>, outcome: map<string, Status>, k: nat)
    requires Interleaves(updates, outcome) && k <= |updates|
    requires forall j :: 0 < j <= k ==> !AllAnswered(expected, updates, j)
    ensures Run(expected, FRESH, Reports(updates), k) == Phase(updates[..k], false)
  {
    if k > 0 {
      OpenUntil(expected, updates, outcome, k - 1);
      SnocPrefix(updates, k - 1);
      SettledIffAllAnswered(expected, updates, outcome, k);
    }
  }

  ghost predicate FinishedAfter(expected: Option<set<string>>, updates: seq<Update>, k: nat)
    requires k <= |updates|
  {
    Run(expected, FRESH, Reports(updates), k).finished
  }

  /** The round is first finished after `k` updates. */
  ghost predicate FirstFinish(expected: Option<set<string>>, updates: seq<Update>, k: nat)
    requires k <= |updates|
  {
    && FinishedAfter(expected, updates, k)
    && forall j :: 0 <= j < k ==> !FinishedAfter(expected, updates, j)
  }

  lemma FinishesWhenAnswered(expected: Option<set<string>>, updates: seq<Update>, outcome: map<string, Status>, k: nat)
    requires Interleaves(updates, outcome) && 0 < k <= |updates| && AllAnswered(expected, updates, k)
    requires forall j :: 0 < j < k ==> !AllAnswered(expected, updates, j)
    ensures FirstFinish(expected, updates, k)
  {
    OpenUntil(expected, updates, outcome, k - 1);
    SnocPrefix(updates, k - 1);
    SettledIffAllAnswered(expected, updates, outcome, k);
    forall j | 0 <= j < k ensures !FinishedAfter(expected, updates, j) {
      OpenUntil(expected, updates, outcome, j);
    }
  }

  /** Whatever is expected, an interleaving first finishes its round at the first
      point where every server expected or heard of has answered, if there is one. */
  lemma FirstFinishIff(expected: Option<set<string>>, updates: seq<Update>, outcome: map<string, Status>, k: nat)
    requires Interleaves(updates, outcome) && k <= |updates|
    ensures FirstFinish(expected, updates, k) <==>
            0 < k && AllAnswered(expected, updates, k) && forall j :: 0 < j < k ==> !AllAnswered(expected, updates, j)
  {
    if j: nat :| 0 < j <= k && AllAnswered(expected, updates, j) {
      var first := FirstAnswered(expected, updates, j);
      FinishesWhenAnswered(expected, updates, outcome, first);
    } else {
      OpenUntil(expected, updates, outcome, k);
    }
  }

  lemma {:induction false} FirstAnswered(expected: Option<set<string>>, updates: seq<Update>, k: nat) returns (first: nat)
    requires 0 < k <= |updates| && AllAnswered(expected, updates, k)
    ensures 0 < first <= k && AllAnswered(expected, updates, first)
    ensures forall j :: 0 < j < first ==> !AllAnswered(expected, updates, j)
  {
    if j: nat :| 0 < j < k && AllAnswered(expected, updates, j) {
      first := FirstAnswered(expected, updates, j);
    } else {
      first := k;
    }
  }

  /** The round finishes before the interleaving ends exactly when at some earlier
      point every server heard of has answered, and with it every member of a
      known expected set. */
  lemma FinishesEarlyIff(expected: Option<set<string>>, updates: seq<Update>, outcome: map<string, Status>)
    requires Interleaves(updates, outcome)
    ensures (exists k :: 0 <= k < |updates| && FinishedAfter(expected, updates, k)) <==>
            (exists k :: 0 < k < |updates| && AllAnswered(expected, updates, k))
  {
    if k :| 0 < k < |updates| && AllAnswered(expected, updates, k) {
      var first := FirstAnswered(expected, updates, k);
      FinishesWhenAnswered(expected, updates, outcome, first);
      assert 0 <= first < |updates| && FinishedAfter(expected, updates, first);
    } else {
      forall k | 0 <= k < |updates| ensures !FinishedAfter(expected, updates, k) {
        OpenUntil(expected, updates, outcome, k);
      }
    }
  }

  /** An interleaving that does not finish early finishes at its last event
      exactly when every expected server takes part in it. */
  lemma FinishesLastIff(expected: Option<set<string>>, updates: seq<Update>, outcome: map<string, Status>)
    requires Interleaves(updates, outcome) && outcome.Keys != {}
    requires forall k :: 0 < k < |updates| ==> !AllAnswered(expected, updates, k)
    ensures FirstFinish(expected, updates, |updates|) <==> expected.None? || expected.value <= outcome.Keys
  {
    WholeInterleavingSettles(updates, outcome);
    FirstFinishIff(expected, updates, outcome, |updates|);
    assert updates[..|updates|] == updates;
    forall s ensures |OfServer(updates, |updates|, s)| == 2 <==> s in outcome {
      if s !in outcome {
        StrangerSilent(updates, outcome, |updates|, s);
      }
    }
    assert Reported(updates) <= outcome.Keys;
  }

  lemma OwnOfFour(us: seq<Update>, s: string)
    requires |us| == 4
    ensures var own := (u: Update) => if u.server == s then [u] else [];
            && OfServer(us, 2, s) == own(us[0]) + own(us[1])
            && OfServer(us, 4, s) == own(us[0]) + own(us[1]) + own(us[2]) + own(us[3])
  {
    assert OfServer(us, 0, s) == [];
    assert OfServer(us, 1, s) == if us[0].server == s then [us[0]] else [];
    assert OfServer(us, 3, s) == OfServer(us, 2, s) + if us[2].server == s then [us[2]] else [];
  }

  /** Two servers that start and answer one after the other show it, for an
      expected set that is absent, empty, or leaves the second server out. */
  lemma EarlyFinishExample(expected: Option<set<string>>, first: string, second: string)
    requires first != second && (expected.Some? ==> expected.value <= {first})
    ensures var updates := [Update(first, Starting), Update(first, Ready),
                            Update(second, Starting), Update(second, Ready)];
            && Interleaves(updates, map[first := Ready, second := Ready])
            && FinishedAfter(expected, updates, 2)
  {
    var updates := [Update(first, Starting), Update(first, Ready), Update(second, Starting), Update(second, Ready)];
    OneAfterTheOther(updates, first, second);
    FinishedAfterTwo(expected, updates, first, second);
  }

  lemma {:induction false} OneAfterTheOther(us: seq<Update>, first: string, second: string)
    requires first != second && |us| == 4 && us[0] == Update(first, Starting) && us[1] == Update(first, Ready)
    requires us[2] == Update(second, Starting) && us[3] == Update(second, Ready)
    ensures Interleaves(us, map[first := Ready, second := Ready])
  {
    OwnOfFour(us, first);
    OwnOfFour(us, second);
  }

  lemma {:induction false} AnsweredAfterTwo(expected: Option<set<string>>, us: seq<Update>, first: string)
    requires |us| == 4 && us[0] == Update(first, Starting) && us[1] == Update(first, Ready)
    requires expected.Some? ==> expected.value <= {first}
    ensures AllAnswered(expected, us, 2)
  {
    OwnOfFour(us, first);
  }

  lemma {:induction false} NotAnsweredAfterOne(expected: Option<set<string>>, us: seq<Update>, first: string)
    requires |us| == 4 && us[0] == Update(first, Starting)
    ensures !AllAnswered(expected, us, 1)
  {
    assert OfServer(us, 0, first) == [];
    assert OfServer(us, 1, us[0].server) == [us[0]];
  }

  lemma {:induction false} FinishedAfterTwo(expected: Option<set<string>>, us: seq<Update>, first: string, second: string)
    requires |us| == 4 && us[0] == Update(first, Starting) && us[1] == Update(first, Ready)
    requires Interleaves(us, map[first := Ready, second := Ready]) && (expected.Some? ==> expected.value <= {first})
    ensures FinishedAfter(expected, us, 2)
  {
    AnsweredAfterTwo(expected, us, first);
    NotAnsweredAfterOne(expected, us, first);
    FinishesWhenAnswered(expected, us, map[first := Ready, second := Ready], 2);
  }
}
