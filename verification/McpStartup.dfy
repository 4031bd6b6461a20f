/** The MCP startup tracker of the Codex app-server runtime.

    The tracker keeps one status per server, a set of servers already warned
    about and two flags.  Its contract is given by the history of the current
    round: the updates it accepted since the last reset. */
module McpStartup {
  import opened Names
  import opened Text

  datatype Status = Starting | Ready | Failed(error: string) | Cancelled

  datatype Update = Update(server: string, status: Status)

  /** The user-visible warnings, by what they say. */
  datatype Message =
    | FailureText(error: string)
    | Interrupted(servers: seq<string>)
    | Incomplete(servers: seq<string>)

  /** The wording of a warning. */
  function Wording(m: Message): string {
    match m
    case FailureText(error) => error
    case Interrupted(servers) =>
      "MCP startup interrupted. The following servers were not initialized: " + Join(servers, ", ")
    case Incomplete(servers) =>
      "MCP startup incomplete (failed: " + Join(servers, ", ") + ")"
  }

  function Texts(messages: seq<Message>): (texts: seq<string>)
    ensures |texts| == |messages|
  {
    seq(|messages|, i requires 0 <= i < |messages| => Wording(messages[i]))
  }

  lemma TextsConcat(a: seq<Message>, b: seq<Message>)
    ensures Texts(a + b) == Texts(a) + Texts(b)
  {
  }

  // ---------- What a round's history means ----------

  function Reported(round: seq<Update>): set<string> {
    set i | 0 <= i < |round| :: round[i].server
  }

  function LastStatus(round: seq<Update>, server: string): Option<Status> {
    if round == [] then None
    else if round[|round| - 1].server == server then Some(round[|round| - 1].status)
    else LastStatus(round[..|round| - 1], server)
  }

  ghost predicate SawStarting(round: seq<Update>) {
    exists i :: 0 <= i < |round| && round[i].status.Starting?
  }

  /** The servers that reported a failure at least once in the round. */
  function FailedOnce(round: seq<Update>): set<string> {
    set i | 0 <= i < |round| && round[i].status.Failed? :: round[i].server
  }

  function Participants(expected: Option<set<string>>, round: seq<Update>): set<string> {
    (if expected.Some? then expected.value else {}) + Reported(round)
  }

  predicate Terminal(status: Option<Status>) {
    status.Some? && !status.value.Starting?
  }

  /** A round is settled when something started and every expected or reported
      server's last word is terminal. */
  ghost predicate Settled(expected: Option<set<string>>, round: seq<Update>) {
    && SawStarting(round)
    && forall s :: s in Participants(expected, round) ==> Terminal(LastStatus(round, s))
  }

  predicate NotInitialized(status: Option<Status>) {
    status.None? || status.value.Starting? || status.value.Cancelled?
  }

  predicate HasFailed(status: Option<Status>) {
    status.Some? && status.value.Failed?
  }

  function InterruptedServers(expected: Option<set<string>>, round: seq<Update>): set<string> {
    set s | s in Participants(expected, round) && NotInitialized(LastStatus(round, s))
  }

  function FailedServers(expected: Option<set<string>>, round: seq<Update>): set<string> {
    set s | s in Participants(expected, round) && HasFailed(LastStatus(round, s))
  }

  function SummaryMessages(interrupted: seq<string>, failed: seq<string>): seq<Message> {
    (if interrupted == [] then [] else [Interrupted(interrupted)]) +
    (if failed == [] then [] else [Incomplete(failed)])
  }

  function Summary(expected: Option<set<string>>, round: seq<Update>): seq<Message> {
    SummaryMessages(Sorted(InterruptedServers(expected, round)), Sorted(FailedServers(expected, round)))
  }

  /** The warning for an update: its text, on the server's first failure. */
  function Warning(before: seq<Update>, update: Update): seq<Message> {
    if update.status.Failed? && update.server !in FailedOnce(before)
    then [FailureText(update.status.error)] else []
  }

  // ---------- Rounds as a protocol over events ----------

  /** What the runtime feeds the tracker: a status update, or the news that the
      event channel lagged. */
  datatype Event = Report(update: Update) | Lag

  /** The accepted updates of the current round, and whether it has finished. */
  datatype Phase = Phase(round: seq<Update>, finished: bool)

  const FRESH := Phase([], false)

  /** After a finish, only a Starting update opens a new round. */
  predicate Stale(p: Phase, update: Update) {
    p.finished && !update.status.Starting?
  }

  function Before(p: Phase): seq<Update> {
    if p.finished then [] else p.round
  }

  ghost function Advance(expected: Option<set<string>>, p: Phase, e: Event): Phase {
    match e
    case Report(update) =>
      if Stale(p, update) then p
      else
        var round := Before(p) + [update];
        Phase(round, Settled(expected, round))
    case Lag => if p.round == [] then p else p.(finished := true)
  }

  /** Whether the event makes the tracker compute a summary. */
  ghost predicate Summarizes(expected: Option<set<string>>, p: Phase, e: Event) {
    match e
    case Report(update) => !Stale(p, update) && Settled(expected, Before(p) + [update])
    case Lag => !p.finished && p.round != []
  }

  ghost function Emitted(expected: Option<set<string>>, p: Phase, e: Event): seq<Message> {
    (if e.Report? && !Stale(p, e.update) then Warning(Before(p), e.update) else []) +
    (if Summarizes(expected, p, e) then Summary(expected, Advance(expected, p, e).round) else [])
  }

  // ---------- Facts about histories ----------

  /** `LastStatus` is the status of the server's last update, if it has one. */
  lemma {:induction false} LastStatusMeaning(round: seq<Update>, server: string, status: Status)
    ensures LastStatus(round, server) == Some(status) <==>
            exists i :: 0 <= i < |round| && round[i] == Update(server, status) &&
                        forall j :: i < j < |round| ==> round[j].server != server
  {
    if round != [] {
      var n := |round| - 1;
      var front := round[..n];
      assert forall i :: 0 <= i < n ==> front[i] == round[i];
      LastStatusMeaning(front, server, status);
      if LastStatus(round, server) == Some(status) {
        if round[n].server == server {
          assert round[n] == Update(server, status);
        }
      }
    }
  }

  lemma {:induction false} LastStatusReported(round: seq<Update>, server: string)
    ensures LastStatus(round, server).Some? <==> server in Reported(round)
  {
    if round != [] {
      var n := |round| - 1;
      ReportedSnoc(round[..n], round[n]);
      assert round == round[..n] + [round[n]];
      LastStatusReported(round[..n], server);
    }
  }

  lemma ReportedSnoc(round: seq<Update>, u: Update)
    ensures Reported(round + [u]) == Reported(round) + {u.server}
    ensures FailedOnce(round + [u]) == FailedOnce(round) + (if u.status.Failed? then {u.server} else {})
    ensures SawStarting(round + [u]) <==> SawStarting(round) || u.status.Starting?
    ensures forall s :: LastStatus(round + [u], s) == if s == u.server then Some(u.status) else LastStatus(round, s)
  {
    var longer := round + [u];
    assert longer[|round|] == u;
    assert longer[..|round|] == round;
    assert forall i :: 0 <= i < |round| ==> longer[i] == round[i];
    forall s ensures s in Reported(longer) <==> s in Reported(round) || s == u.server {
      if s in Reported(round) {
        var i :| 0 <= i < |round| && round[i].server == s;
        assert longer[i].server == s;
      }
    }
    forall s ensures s in FailedOnce(longer) <==> s in FailedOnce(round) || (u.status.Failed? && s == u.server) {
      if s in FailedOnce(round) {
        var i :| 0 <= i < |round| && round[i].status.Failed? && round[i].server == s;
        assert longer[i].status.Failed?;
      }
    }
    if SawStarting(round) {
      var i :| 0 <= i < |round| && round[i].status.Starting?;
      assert longer[i].status.Starting?;
    }
  }

  /** The vector sort and dedup that the summary applies to its name lists. */
  function SortDedup(xs: seq<string>): seq<string> {
    Sorted(Elements(xs))
  }

  lemma SortDedupChangesNothing(xs: seq<string>)
    requires StrictlySorted(xs)
    ensures SortDedup(xs) == xs
  {
    SortedUnique(SortDedup(xs), xs);
  }

  /** The tracker's fields are the readings of a round's history. */
  ghost predicate Mirrors(current: map<string, Status>, warned: set<string>, sawStarting: bool, round: seq<Update>) {
    && (forall s :: Lookup(current, s) == LastStatus(round, s))
    && warned == FailedOnce(round)
    && (sawStarting <==> SawStarting(round))
  }

  lemma MirrorsSnoc(current: map<string, Status>, warned: set<string>, sawStarting: bool,
                    round: seq<Update>, u: Update)
    requires Mirrors(current, warned, sawStarting, round)
    ensures Mirrors(current[u.server := u.status],
                    if u.status.Failed? then warned + {u.server} else warned,
                    sawStarting || u.status.Starting?, round + [u])
  {
    ReportedSnoc(round, u);
  }

  lemma MirrorsKeys(current: map<string, Status>, round: seq<Update>)
    requires forall s :: Lookup(current, s) == LastStatus(round, s)
    ensures current.Keys == Reported(round)
    ensures current == map[] <==> round == []
  {
    forall s ensures s in current <==> s in Reported(round) {
      LastStatusReported(round, s);
      assert Lookup(current, s).Some? <==> s in current;
    }
    if round != [] {
      assert round[0].server in Reported(round);
    }
    if round == [] {
      assert current.Keys == {};
    }
  }

  function ExpectedNames(expected: Option<set<string>>, current: map<string, Status>): Option<set<string>> {
    if expected.Some? then Some(expected.value + current.Keys)
    else if current == map[] then None
    else Some(current.Keys)
  }

  lemma ExpectedNamesMeaning(expected: Option<set<string>>, current: map<string, Status>, round: seq<Update>)
    requires forall s :: Lookup(current, s) == LastStatus(round, s)
    ensures var names := ExpectedNames(expected, current);
            && (names.None? <==> expected.None? && round == [])
            && (names.Some? ==> names.value == Participants(expected, round))
  {
    MirrorsKeys(current, round);
  }

  lemma SnocPrefix<T>(xs: seq<T>, i: nat)
    requires i < |xs|
    ensures xs[..i + 1] == xs[..i] + [xs[i]]
  {
  }

  /** `part` lists, in increasing order, the members of `whole` that satisfy `p`. */
  ghost predicate SortedPart(part: seq<string>, whole: seq<string>, p: Option<Status> -> bool,
                             current: map<string, Status>) {
    StrictlySorted(part) && forall s :: s in part <==> s in whole && p(Lookup(current, s))
  }

  lemma SortedPartSnoc(part: seq<string>, whole: seq<string>, p: Option<Status> -> bool,
                       current: map<string, Status>, name: string)
    requires SortedPart(part, whole, p, current)
    requires StrictlySorted(whole + [name])
    ensures SortedPart(if p(Lookup(current, name)) then part + [name] else part, whole + [name], p, current)
  {
    var longer := whole + [name];
    forall k | 0 <= k < |part| ensures Lt(part[k], name) {
      assert part[k] in part;
      var i :| 0 <= i < |whole| && whole[i] == part[k];
      assert longer[i] == part[k] && longer[|whole|] == name;
    }
  }

  lemma SummaryLists(expected: Option<set<string>>, current: map<string, Status>, round: seq<Update>,
                     listed: seq<string>, failed: seq<string>, cancelled: seq<string>)
    requires forall s :: Lookup(current, s) == LastStatus(round, s)
    requires Elements(listed) == Participants(expected, round)
    requires SortedPart(failed, listed, HasFailed, current)
    requires SortedPart(cancelled, listed, NotInitialized, current)
    ensures SortDedup(failed) == failed && SortDedup(cancelled) == cancelled
    ensures SummaryMessages(cancelled, failed) == Summary(expected, round)
  {
    SortDedupChangesNothing(failed);
    SortDedupChangesNothing(cancelled);
    assert forall s :: s in listed <==> s in Elements(listed);
    assert Elements(failed) == FailedServers(expected, round);
    assert Elements(cancelled) == InterruptedServers(expected, round);
  }

  /** What a lag makes of a phase. */
  lemma LagOutput(expected: Option<set<string>>, p: Phase)
    ensures p.finished || p.round == [] ==>
              Emitted(expected, p, Lag) == [] && Advance(expected, p, Lag) == p
    ensures !p.finished && p.round != [] ==>
              Emitted(expected, p, Lag) == Summary(expected, p.round) && Advance(expected, p, Lag) == Phase(p.round, true)
  {
  }

  /** The server is expected, or was heard of in the round. */
  predicate TakesPart(expected: Option<set<string>>, round: seq<Update>, server: string) {
    (expected.Some? && server in expected.value) || exists i :: 0 <= i < |round| && round[i].server == server
  }

  /** The servers a summary names: interrupted are those that take part without a
      status or were last Starting or Cancelled, failed those that last Failed. */
  lemma SummaryNames(expected: Option<set<string>>, round: seq<Update>, server: string)
    ensures server in Sorted(InterruptedServers(expected, round)) <==>
            TakesPart(expected, round, server) && LastStatus(round, server) in {None, Some(Starting), Some(Cancelled)}
    ensures server in Sorted(FailedServers(expected, round)) <==>
            TakesPart(expected, round, server) && exists error :: LastStatus(round, server) == Some(Failed(error))
  {
    assert TakesPart(expected, round, server) <==> server in Participants(expected, round);
    var interrupted, failed := InterruptedServers(expected, round), FailedServers(expected, round);
    assert server in Elements(Sorted(interrupted)) <==> server in interrupted;
    assert server in Elements(Sorted(failed)) <==> server in failed;
    var status := LastStatus(round, server);
    if HasFailed(status) {
      assert status == Some(Failed(status.value.error));
    }
  }

  /** The texts at the end of a round: first those interrupted, then those failed. */
  lemma SummaryWording(expected: Option<set<string>>, round: seq<Update>)
    ensures var interrupted := Sorted(InterruptedServers(expected, round));
            var failed := Sorted(FailedServers(expected, round));
            Texts(Summary(expected, round)) ==
            (if interrupted == [] then []
             else ["MCP startup interrupted. The following servers were not initialized: " + Join(interrupted, ", ")]) +
            (if failed == [] then [] else ["MCP startup incomplete (failed: " + Join(failed, ", ") + ")"])
  {
  }

  /** A failure is reported with its own text, the first time the server fails in the round. */
  lemma WarningWording(before: seq<Update>, u: Update)
    ensures Texts(Warning(before, u)) ==
            if u.status.Failed? && forall i :: 0 <= i < |before| && before[i].server == u.server ==> !before[i].status.Failed?
            then [u.status.error] else []
  {
  }

  method SummaryTextsOf(interrupted: seq<string>, failed: seq<string>) returns (messages: seq<string>)
    ensures messages == Texts(SummaryMessages(interrupted, failed))
  {
    messages := [];
    if interrupted != [] {
      messages := messages + [Wording(Interrupted(interrupted))];
    }
    if failed != [] {
      messages := messages + [Wording(Incomplete(failed))];
    }
  }

  // ---------- The tracker ----------

  class Tracker {
    const expected: Option<set<string>>
    var current: map<string, Status>
    var warned: set<string>
    var sawStarting: bool
    var finished: bool
    ghost var round: seq<Update>

    ghost predicate Mirroring()
      reads this
    {
      Mirrors(current, warned, sawStarting, round)
    }

    /** Every field is the corresponding reading of the round's history, and a
        round still open has not settled. */
    ghost predicate Valid()
      reads this
    {
      && Mirroring()
      && (finished ==> round != [])
      && (!finished ==> !Settled(expected, round))
    }

    ghost function View(): Phase
      reads this
    {
      Phase(round, finished)
    }

    constructor (expectedServers: Option<seq<string>>)
      ensures Valid() && View() == FRESH
      ensures expected == if expectedServers.Some? then Some(Elements(expectedServers.value)) else None
    {
      expected := if expectedServers.Some? then Some(Elements(expectedServers.value)) else None;
      current, warned := map[], {};
      sawStarting, finished := false, false;
      round := [];
    }

    method RecordUpdate(server: string, status: Status) returns (messages: seq<string>)
      requires Valid()
      modifies this
      ensures Valid()
      ensures View() == Advance(expected, old(View()), Report(Update(server, status)))
      ensures messages == Texts(Emitted(expected, old(View()), Report(Update(server, status))))
      ensures Stale(old(View()), Update(server, status)) ==> unchanged(this)
    {
      if finished {
        if !status.Starting? {
          return [];
        }
        ResetRound();
      }
      ghost var before := round;
      MirrorsSnoc(current, warned, sawStarting, before, Update(server, status));

      if status.Starting? {
        sawStarting := true;
      }

      messages := [];
      if status.Failed? {
        if server !in warned {
          warned := warned + {server};
          messages := messages + [status.error];
        }
      }
      ghost var warning := Warning(before, Update(server, status));
      assert messages == Texts(warning);
      assert status.Failed? ==> warned == old(warned) + {server} || warned == {server};

      current := current[server := status];
      round := round + [Update(server, status)];
      assert Mirroring();
      ShouldFinishRoundMeaning();
      if ShouldFinishRound() {
        var summary := FinishRoundSummary();
        TextsConcat(warning, Summary(expected, round));
        messages := messages + summary;
      }
    }

    method FinishAfterLag() returns (messages: seq<string>)
      requires Valid()
      modifies this`finished
      ensures Valid()
      ensures View() == Advance(expected, old(View()), Lag)
      ensures messages == Texts(Emitted(expected, old(View()), Lag))
    {
      MirrorsKeys(current, round);
      LagOutput(expected, View());
      if finished || current == map[] {
        return [];
      }
      messages := FinishRoundSummary();
    }

    predicate ShouldFinishRound()
      reads this
    {
      if finished || current == map[] then false
      else
        var names := ExpectedNames(expected, current);
        if names.None? then false
        else if names.value != {} && !(forall name :: name in names.value ==> name in current) then false
        else if !sawStarting && names.value != {} then false
        else forall name :: name in current ==> !current[name].Starting?
    }

    /** The guard chain decides exactly whether the open round has settled. */
    lemma ShouldFinishRoundMeaning()
      requires Mirroring()
      ensures ShouldFinishRound() <==> !finished && Settled(expected, round)
    {
      MirrorsKeys(current, round);
      ExpectedNamesMeaning(expected, current, round);
      var names := ExpectedNames(expected, current);
      if current != map[] {
        assert round[0].server in Participants(expected, round);
        assert forall s :: s in Participants(expected, round) ==> Lookup(current, s) == LastStatus(round, s);
        assert forall s :: s in current ==> s in names.value && Lookup(current, s) == Some(current[s]);
      }
    }

    method FinishRoundSummary() returns (messages: seq<string>)
      requires Mirroring() && round != []
      modifies this`finished
      ensures finished
      ensures messages == Texts(Summary(expected, round))
    {
      var failed, cancelled := ClassifyServers();
      failed := SortDedup(failed);
      cancelled := SortDedup(cancelled);
      finished := true;
      messages := SummaryTextsOf(cancelled, failed);
    }

    /** The loop over the expected names: it fills both lists in increasing
        order, so sorting and deduplicating them afterwards changes nothing. */
    method ClassifyServers() returns (failed: seq<string>, cancelled: seq<string>)
      requires Mirroring() && round != []
      ensures SortDedup(failed) == failed && SortDedup(cancelled) == cancelled
      ensures SummaryMessages(cancelled, failed) == Summary(expected, round)
    {
      failed, cancelled := [], [];
      var names := ExpectedNames(expected, current);
      var listed := if names.Some? then Sorted(names.value) else [];
      for i := 0 to |listed|
        invariant SortedPart(failed, listed[..i], HasFailed, current)
        invariant SortedPart(cancelled, listed[..i], NotInitialized, current)
      {
        var server := listed[i];
        SnocPrefix(listed, i);
        SortedPartSnoc(failed, listed[..i], HasFailed, current, server);
        SortedPartSnoc(cancelled, listed[..i], NotInitialized, current, server);
        failed, cancelled := Classify(server, failed, cancelled);
      }
      assert listed[..|listed|] == listed;
      ExpectedNamesMeaning(expected, current, round);
      SummaryLists(expected, current, round, listed, failed, cancelled);
    }

    /** One server, appended to the list its status calls for, if any. */
    method Classify(server: string, failed: seq<string>, cancelled: seq<string>)
      returns (nowFailed: seq<string>, nowCancelled: seq<string>)
      ensures nowFailed == if HasFailed(Lookup(current, server)) then failed + [server] else failed
      ensures nowCancelled == if NotInitialized(Lookup(current, server)) then cancelled + [server] else cancelled
    {
      nowFailed, nowCancelled := failed, cancelled;
      match Lookup<Status>(current, server) {
        case Some(Ready) =>
        case Some(Failed(_)) => nowFailed := failed + [server];
        case Some(Cancelled) => nowCancelled := cancelled + [server];
        case Some(Starting) => nowCancelled := cancelled + [server];
        case None => nowCancelled := cancelled + [server];
      }
    }

    method ResetRound()
      modifies this
      ensures current == map[] && warned == {} && !sawStarting && !finished && round == []
      ensures Valid()
    {
      current := map[];
      warned := {};
      sawStarting := false;
      finished := false;
      round := [];
    }
  }
}
