/** Coordination of the terminal palette probe.

    Starters, the probe's worker and awaiters run concurrently; every access to
    a shared flag or to the one-permit notifier is one atomic step, and a run is
    any interleaving of steps.  There is any number of starters and awaiters. */
module PaletteProbe {
  import opened Names
  import opened Sequences

  /** A call of `start_terminal_palette_probe`. */
  datatype Starter = Arriving | Spawning | Started

  /** The spawned task; its completion guard stores the flag, then notifies. */
  datatype Worker = Probing | Signalling | Gone

  datatype Call = Await | Finish

  datatype How = NotStarted | ProbedItself | FoundDone | WasWoken

  /** A call of `await_…` or `finish_terminal_palette_probe`. */
  datatype Awaiter =
    | Entering(call: Call)
    | SelfProbing
    | CheckingDone
    | Asking
    | Blocked
    | Woken
    | Returned(how: How)

  datatype State = State(
    started: bool,
    done: bool,
    permit: bool,
    starters: seq<Starter>,
    workers: seq<Worker>,
    awaiters: seq<Awaiter>)

  datatype Action =
    | Swap(starter: nat)
    | Spawn(starter: nat)
    | Stop(worker: nat, panicked: bool)
    | Notify(worker: nat, waiter: Option<nat>)
    | Enter(awaiter: nat)
    | ProbeSynchronously(awaiter: nat)
    | CheckDone(awaiter: nat)
    | AskForNotice(awaiter: nat)
    | Recheck(awaiter: nat)

  // ---------- Steps ----------

  predicate SomeoneBlocked(s: State) {
    exists j :: 0 <= j < |s.awaiters| && s.awaiters[j].Blocked?
  }

  predicate At(s: State, j: nat, a: Awaiter) {
    j < |s.awaiters| && s.awaiters[j] == a
  }

  predicate Enabled(s: State, a: Action) {
    match a
    case Swap(i) => i < |s.starters| && s.starters[i].Arriving?
    case Spawn(i) => i < |s.starters| && s.starters[i].Spawning?
    case Stop(w, _) => w < |s.workers| && s.workers[w].Probing?
    case Notify(w, waiter) =>
      && w < |s.workers| && s.workers[w].Signalling?
      && (waiter.None? ==> !SomeoneBlocked(s))
      && (waiter.Some? ==> At(s, waiter.value, Blocked))
    case Enter(j) => j < |s.awaiters| && s.awaiters[j].Entering?
    case ProbeSynchronously(j) => At(s, j, SelfProbing)
    case CheckDone(j) => At(s, j, CheckingDone)
    case AskForNotice(j) => At(s, j, Asking)
    case Recheck(j) => At(s, j, Woken)
  }

  function Move(s: State, j: nat, a: Awaiter): State
    requires j < |s.awaiters|
  {
    s.(awaiters := s.awaiters[j := a])
  }

  function Apply(s: State, a: Action): State
    requires Enabled(s, a)
  {
    match a
    case Swap(i) => s.(started := true, starters := s.starters[i := if s.started then Started else Spawning])
    case Spawn(i) => s.(starters := s.starters[i := Started], workers := s.workers + [Probing])
    case Stop(w, _) => s.(done := true, workers := s.workers[w := Signalling])
    case Notify(w, waiter) =>
      var gone := s.(workers := s.workers[w := Gone]);
      if waiter.Some? then Move(gone, waiter.value, Woken) else gone.(permit := true)
    case Enter(j) =>
      Move(s, j, if s.started then CheckingDone
                 else if s.awaiters[j].call.Await? then SelfProbing
                 else Returned(NotStarted))
    case ProbeSynchronously(j) => Move(s, j, Returned(ProbedItself))
    case CheckDone(j) => Move(s, j, if s.done then Returned(FoundDone) else Asking)
    case AskForNotice(j) => if s.permit then Move(s, j, Woken).(permit := false) else Move(s, j, Blocked)
    case Recheck(j) => Move(s, j, if s.done then Returned(WasWoken) else Asking)
  }

  predicate Initial(s: State) {
    && !s.started && !s.done && !s.permit && s.workers == []
    && (forall i :: 0 <= i < |s.starters| ==> s.starters[i].Arriving?)
    && (forall j :: 0 <= j < |s.awaiters| ==> s.awaiters[j].Entering?)
  }

  /** The states visited by performing `actions` from `s`, if all are enabled. */
  ghost predicate IsRun(states: seq<State>, actions: seq<Action>) {
    && |states| == |actions| + 1
    && forall k :: 0 <= k < |actions| ==> Enabled(states[k], actions[k]) && states[k + 1] == Apply(states[k], actions[k])
  }

  // ---------- Counting ----------

  function CountAll<T>(xs: seq<T>, p: T -> bool): nat {
    Count(xs, |xs|, p)
  }

  predicate IsSpawning(s: Starter) { s.Spawning? }
  predicate IsGone(w: Worker) { w.Gone? }
  predicate HasSignalled(w: Worker) { !w.Probing? }
  predicate IsBlocked(a: Awaiter) { a.Blocked? }
  predicate TookNotice(a: Awaiter) { a.Woken? || a == Returned(WasWoken) }
  predicate HasCommitted(a: Awaiter) { a.Asking? || a.Blocked? || a.Woken? || a == Returned(WasWoken) }

  function BlockedCount(s: State): nat { CountAll(s.awaiters, IsBlocked) }

  /** The awaiters that found the probe unfinished and so asked for a notice. */
  function CommittedCount(s: State): nat { CountAll(s.awaiters, HasCommitted) }

  function NoticesTaken(s: State): nat { CountAll(s.awaiters, TookNotice) }

  // ---------- The invariant ----------

  /** Every reachable state: one worker per successful swap; the flag tells
      whether the guard has run; each notification is either a stored permit or
      was taken by exactly one awaiter. */
  ghost predicate Inv(s: State) {
    && CountAll(s.starters, IsSpawning) + |s.workers| == (if s.started then 1 else 0)
    && s.done == (CountAll(s.workers, HasSignalled) > 0)
    && CountAll(s.workers, IsGone) == NoticesTaken(s) + (if s.permit then 1 else 0)
    && (s.permit ==> BlockedCount(s) == 0)
    && (forall j :: 0 <= j < |s.awaiters| ==>
          match s.awaiters[j]
          case CheckingDone => s.started
          case Asking => s.started
          case Blocked => s.started
          case Woken => s.done
          case Returned(how) => how.FoundDone? || how.WasWoken? ==> s.done
          case _ => true)
  }

  lemma InitialInv(s: State)
    requires Initial(s)
    ensures Inv(s) && CommittedCount(s) == 0
  {
    CountNone(s.starters, |s.starters|, IsSpawning);
    CountNone(s.awaiters, |s.awaiters|, TookNotice);
    CountNone(s.awaiters, |s.awaiters|, HasCommitted);
  }

  /** How an awaiter's move changes the counts. */
  lemma MoveCounts(s: State, j: nat, a: Awaiter)
    requires j < |s.awaiters|
    ensures var t, was := Move(s, j, a), s.awaiters[j];
            && BlockedCount(t) == BlockedCount(s) + (if a.Blocked? then 1 else 0) - (if was.Blocked? then 1 else 0)
            && NoticesTaken(t) == NoticesTaken(s) + (if TookNotice(a) then 1 else 0) - (if TookNotice(was) then 1 else 0)
            && CommittedCount(t) ==
               CommittedCount(s) + (if HasCommitted(a) then 1 else 0) - (if HasCommitted(was) then 1 else 0)
  {
    CountUpdate(s.awaiters, |s.awaiters|, j, a, IsBlocked);
    CountUpdate(s.awaiters, |s.awaiters|, j, a, TookNotice);
    CountUpdate(s.awaiters, |s.awaiters|, j, a, HasCommitted);
  }

  lemma WorkerCounts(s: State, w: nat, next: Worker)
    requires w < |s.workers|
    ensures CountAll(s.workers[w := next], IsGone) ==
            CountAll(s.workers, IsGone) + (if next.Gone? then 1 else 0) - (if s.workers[w].Gone? then 1 else 0)
    ensures CountAll(s.workers[w := next], HasSignalled) ==
            CountAll(s.workers, HasSignalled) + (if next.Probing? then 0 else 1) - (if s.workers[w].Probing? then 0 else 1)
  {
    CountUpdate(s.workers, |s.workers|, w, next, IsGone);
    CountUpdate(s.workers, |s.workers|, w, next, HasSignalled);
  }

  lemma NobodyBlocked(s: State)
    ensures BlockedCount(s) == 0 <==> !SomeoneBlocked(s)
  {
    CountWitness(s.awaiters, |s.awaiters|, IsBlocked);
    assert (exists j :: 0 <= j < |s.awaiters| && IsBlocked(s.awaiters[j])) <==> SomeoneBlocked(s) by {
      if SomeoneBlocked(s) {
        var j :| 0 <= j < |s.awaiters| && s.awaiters[j].Blocked?;
        assert IsBlocked(s.awaiters[j]);
      }
    }
  }

  lemma StarterStepKeepsInv(s: State, a: Action)
    requires Inv(s) && Enabled(s, a) && (a.Swap? || a.Spawn?)
    ensures Inv(Apply(s, a))
  {
    var t := Apply(s, a);
    if a.Swap? {
      CountUpdate(s.starters, |s.starters|, a.starter, t.starters[a.starter], IsSpawning);
    } else {
      CountUpdate(s.starters, |s.starters|, a.starter, Started, IsSpawning);
      CountAppend(s.workers, Probing, |s.workers|, IsGone);
      CountAppend(s.workers, Probing, |s.workers|, HasSignalled);
    }
  }

  lemma WorkerStepKeepsInv(s: State, a: Action)
    requires Inv(s) && Enabled(s, a) && (a.Stop? || a.Notify?)
    ensures Inv(Apply(s, a))
  {
    WorkerCounts(s, a.worker, if a.Stop? then Signalling else Gone);
    CountWitness(s.workers, |s.workers|, HasSignalled);
    if a.Notify? {
      assert HasSignalled(s.workers[a.worker]);
      NobodyBlocked(s);
      if a.waiter.Some? {
        MoveCounts(s.(workers := s.workers[a.worker := Gone]), a.waiter.value, Woken);
      }
    }
  }

  lemma AwaiterStepKeepsInv(s: State, a: Action)
    requires Inv(s) && Enabled(s, a)
    requires a.Enter? || a.ProbeSynchronously? || a.CheckDone? || a.AskForNotice? || a.Recheck?
    ensures Inv(Apply(s, a))
  {
    var j := a.awaiter;
    MoveCounts(s, j, Apply(s, a).awaiters[j]);
    if a.AskForNotice? && s.permit {
      CountWitness(s.workers, |s.workers|, IsGone);
      CountWitness(s.workers, |s.workers|, HasSignalled);
      var w :| 0 <= w < |s.workers| && IsGone(s.workers[w]);
      assert HasSignalled(s.workers[w]);
    }
  }

  lemma StepKeepsInv(s: State, a: Action)
    requires Inv(s) && Enabled(s, a)
    ensures Inv(Apply(s, a))
  {
    if a.Swap? || a.Spawn? {
      StarterStepKeepsInv(s, a);
    } else if a.Stop? || a.Notify? {
      WorkerStepKeepsInv(s, a);
    } else {
      AwaiterStepKeepsInv(s, a);
    }
  }

  lemma {:induction false} RunKeepsInv(states: seq<State>, actions: seq<Action>, k: nat)
    requires IsRun(states, actions) && Initial(states[0]) && k < |states|
    ensures Inv(states[k])
  {
    if k == 0 {
      InitialInv(states[0]);
    } else {
      RunKeepsInv(states, actions, k - 1);
      StepKeepsInv(states[k - 1], actions[k - 1]);
    }
  }

  // ---------- Safety ----------

  /** In every run at most one worker is ever spawned, and an awaiter that found
      the probe started has returned only once the guard has run. */
  lemma SafeReturns(states: seq<State>, actions: seq<Action>, k: nat, j: nat)
    requires IsRun(states, actions) && Initial(states[0]) && k < |states|
    ensures |states[k].workers| <= 1
    ensures j < |states[k].awaiters| && states[k].awaiters[j].Returned? ==>
              states[k].awaiters[j].how.NotStarted? || states[k].awaiters[j].how.ProbedItself? || states[k].done
  {
    RunKeepsInv(states, actions, k);
  }

  // ---------- Late checks ----------

  /** An awaiter looks at the flag before the guard has set it. */
  predicate IsLateCheck(s: State, a: Action) {
    a.CheckDone? && !s.done
  }

  /** How many of the first `n` actions of a run are late checks. */
  function LateChecks(states: seq<State>, actions: seq<Action>, n: nat): nat
    requires n <= |actions| <= |states|
  {
    if n == 0 then 0
    else LateChecks(states, actions, n - 1) + if IsLateCheck(states[n - 1], actions[n - 1]) then 1 else 0
  }

  lemma AwaiterCommits(s: State, j: nat, a: Awaiter)
    requires j < |s.awaiters|
    ensures CountAll(s.awaiters[j := a], HasCommitted) ==
            CommittedCount(s) + (if HasCommitted(a) then 1 else 0) - (if HasCommitted(s.awaiters[j]) then 1 else 0)
  {
    CountUpdate(s.awaiters, |s.awaiters|, j, a, HasCommitted);
  }

  lemma StepCommits(s: State, a: Action)
    requires Enabled(s, a)
    ensures CommittedCount(Apply(s, a)) == CommittedCount(s) + if IsLateCheck(s, a) then 1 else 0
  {
    match a {
      case Notify(w, waiter) => if waiter.Some? { AwaiterCommits(s, waiter.value, Woken); }
      case Enter(j) => AwaiterCommits(s, j, Apply(s, a).awaiters[j]);
      case ProbeSynchronously(j) => AwaiterCommits(s, j, Returned(ProbedItself));
      case AskForNotice(j) => AwaiterCommits(s, j, if s.permit then Woken else Blocked);
      case Recheck(j) => AwaiterCommits(s, j, if s.done then Returned(WasWoken) else Asking);
      case CheckDone(j) => AwaiterCommits(s, j, if s.done then Returned(FoundDone) else Asking);
      case _ =>
    }
  }

  /** The awaiters that have asked for the notification number the late checks. */
  lemma {:induction false} CommittedAreLateChecks(states: seq<State>, actions: seq<Action>, k: nat)
    requires IsRun(states, actions) && Initial(states[0]) && k < |states|
    ensures CommittedCount(states[k]) == LateChecks(states, actions, k)
  {
    if k == 0 {
      InitialInv(states[0]);
    } else {
      CommittedAreLateChecks(states, actions, k - 1);
      StepCommits(states[k - 1], actions[k - 1]);
    }
  }

  // ---------- No lost wakeup ----------

  lemma {:induction false} CommittedSplit(xs: seq<Awaiter>, n: nat)
    requires n <= |xs|
    ensures Count(xs, n, HasCommitted) ==
            Count(xs, n, IsAsking) + Count(xs, n, IsBlocked) + Count(xs, n, TookNotice)
  {
    if n > 0 {
      CommittedSplit(xs, n - 1);
    }
  }

  predicate IsAsking(a: Awaiter) { a.Asking? }

  predicate NotificationSent(s: State) {
    exists w :: 0 <= w < |s.workers| && s.workers[w].Gone?
  }

  lemma GoneCount(s: State)
    requires Inv(s)
    ensures CountAll(s.workers, IsGone) == if NotificationSent(s) then 1 else 0
  {
    CountWitness(s.workers, |s.workers|, IsGone);
    if NotificationSent(s) {
      var w :| 0 <= w < |s.workers| && s.workers[w].Gone?;
      assert IsGone(s.workers[w]);
    }
  }

  /** Once the notification is out, no awaiter is blocked, as long as at most one
      check so far was late. */
  lemma NoLostWakeup(states: seq<State>, actions: seq<Action>, k: nat)
    requires IsRun(states, actions) && Initial(states[0]) && k < |states|
    requires NotificationSent(states[k]) && LateChecks(states, actions, k) <= 1
    ensures !SomeoneBlocked(states[k])
  {
    var s := states[k];
    RunKeepsInv(states, actions, k);
    CommittedAreLateChecks(states, actions, k);
    GoneCount(s);
    NobodyBlocked(s);
    CommittedSplit(s.awaiters, |s.awaiters|);
  }

  /** No step is possible any more. */
  ghost predicate Terminal(s: State) {
    forall a :: !Enabled(s, a)
  }

  lemma SignallingCanNotify(s: State, w: nat)
    requires w < |s.workers| && s.workers[w].Signalling?
    ensures exists a :: Enabled(s, a)
  {
    if SomeoneBlocked(s) {
      var j :| 0 <= j < |s.awaiters| && s.awaiters[j].Blocked?;
      assert Enabled(s, Notify(w, Some(j)));
    } else {
      assert Enabled(s, Notify(w, None));
    }
  }

  lemma TerminalShape(s: State)
    requires Inv(s) && Terminal(s)
    ensures forall i :: 0 <= i < |s.starters| ==> s.starters[i].Started?
    ensures forall w :: 0 <= w < |s.workers| ==> s.workers[w].Gone?
    ensures forall j :: 0 <= j < |s.awaiters| ==> s.awaiters[j].Blocked? || s.awaiters[j].Returned?
  {
    forall i | 0 <= i < |s.starters| ensures s.starters[i].Started? {
      assert !Enabled(s, Swap(i)) && !Enabled(s, Spawn(i));
    }
    forall w | 0 <= w < |s.workers| ensures s.workers[w].Gone? {
      assert !Enabled(s, Stop(w, false));
      if s.workers[w].Signalling? {
        SignallingCanNotify(s, w);
      }
    }
    forall j | 0 <= j < |s.awaiters| ensures s.awaiters[j].Blocked? || s.awaiters[j].Returned? {
      assert !Enabled(s, Enter(j)) && !Enabled(s, ProbeSynchronously(j)) && !Enabled(s, CheckDone(j));
      assert !Enabled(s, AskForNotice(j)) && !Enabled(s, Recheck(j));
    }
  }

  /** When nothing can move, exactly one of the awaiters that asked has been
      released, and all the others are stuck. */
  lemma StuckAwaiters(s: State)
    requires Inv(s) && Terminal(s)
    ensures BlockedCount(s) == if CommittedCount(s) == 0 then 0 else CommittedCount(s) - 1
  {
    TerminalShape(s);
    CountNone(s.starters, |s.starters|, IsSpawning);
    CountNone(s.awaiters, |s.awaiters|, IsAsking);
    CommittedSplit(s.awaiters, |s.awaiters|);
    GoneCount(s);
    CountWitness(s.awaiters, |s.awaiters|, HasCommitted);
    if CommittedCount(s) > 0 {
      var j :| 0 <= j < |s.awaiters| && HasCommitted(s.awaiters[j]);
      CountWitness(s.workers, |s.workers|, HasSignalled);
      assert s.started || s.done;
      assert |s.workers| == 1 && s.workers[0].Gone?;
    }
  }

  /** A run that can go no further has released every awaiter exactly when at
      most one of its checks was late. */
  lemma EveryoneReturnsIff(states: seq<State>, actions: seq<Action>)
    requires IsRun(states, actions) && Initial(states[0]) && Terminal(states[|actions|])
    ensures var s := states[|actions|];
            (forall j :: 0 <= j < |s.awaiters| ==> s.awaiters[j].Returned?) <==> LateChecks(states, actions, |actions|) <= 1
  {
    var s := states[|actions|];
    RunKeepsInv(states, actions, |actions|);
    CommittedAreLateChecks(states, actions, |actions|);
    StuckAwaiters(s);
    TerminalShape(s);
    NobodyBlocked(s);
  }

  // ---------- One awaiter at a time ----------

  predicate Active(a: Awaiter) {
    !a.Entering? && !a.Returned?
  }

  /** The way the program uses the probe: one awaiter waits at a time. */
  predicate OneAtATime(s: State) {
    forall i, j :: 0 <= i < j < |s.awaiters| ==> !(Active(s.awaiters[i]) && Active(s.awaiters[j]))
  }

  lemma NobodyElseCommitted(s: State, j: nat)
    requires Inv(s) && OneAtATime(s) && !s.done && At(s, j, CheckingDone)
    ensures CommittedCount(s) == 0
  {
    forall i | 0 <= i < |s.awaiters| ensures !HasCommitted(s.awaiters[i]) {
      assert Active(s.awaiters[j]);
      assert i != j ==> !Active(s.awaiters[i]);
    }
    CountNone(s.awaiters, |s.awaiters|, HasCommitted);
  }

  lemma {:induction false} OneAtATimeChecks(states: seq<State>, actions: seq<Action>, k: nat)
    requires IsRun(states, actions) && Initial(states[0]) && k < |states|
    requires forall i :: 0 <= i < k ==> OneAtATime(states[i])
    ensures LateChecks(states, actions, k) <= 1
  {
    if k > 0 {
      OneAtATimeChecks(states, actions, k - 1);
      var s, a := states[k - 1], actions[k - 1];
      if IsLateCheck(s, a) {
        RunKeepsInv(states, actions, k - 1);
        NobodyElseCommitted(s, a.awaiter);
        CommittedAreLateChecks(states, actions, k - 1);
      }
    }
  }

  // ---------- Runs end ----------

  function StarterRank(x: Starter): nat { if x.Arriving? then 4 else if x.Spawning? then 3 else 0 }

  function WorkerRank(w: Worker): nat { if w.Probing? then 2 else if w.Signalling? then 1 else 0 }

  function AwaiterRank(a: Awaiter): nat {
    match a
    case Entering(_) => 5
    case CheckingDone => 4
    case Asking => 3
    case Blocked => 2
    case Woken => 1
    case SelfProbing => 1
    case Returned(_) => 0
  }

  function Total<T>(xs: seq<T>, n: nat, rank: T -> nat): nat
    requires n <= |xs|
  {
    if n == 0 then 0 else Total(xs, n - 1, rank) + rank(xs[n - 1])
  }

  lemma {:induction false} TotalUpdate<T>(xs: seq<T>, n: nat, j: nat, x: T, rank: T -> nat)
    requires j < |xs| && n <= |xs|
    ensures Total(xs[j := x], n, rank) == Total(xs, n, rank) + if j < n then rank(x) - rank(xs[j]) else 0
  {
    if n > 0 {
      TotalUpdate(xs, n - 1, j, x, rank);
    }
  }

  lemma {:induction false} TotalAppend<T>(xs: seq<T>, x: T, n: nat, rank: T -> nat)
    requires n <= |xs|
    ensures Total(xs + [x], n, rank) == Total(xs, n, rank)
  {
    if n > 0 {
      TotalAppend(xs, x, n - 1, rank);
    }
  }

  lemma {:induction false} TotalConstant<T>(xs: seq<T>, n: nat, rank: T -> nat, c: nat)
    requires n <= |xs| && forall k :: 0 <= k < |xs| ==> rank(xs[k]) == c
    ensures Total(xs, n, rank) == n * c
  {
    if n > 0 {
      TotalConstant(xs, n - 1, rank, c);
    }
  }

  function Rank(s: State): nat {
    Total(s.starters, |s.starters|, StarterRank) + Total(s.workers, |s.workers|, WorkerRank) +
    Total(s.awaiters, |s.awaiters|, AwaiterRank)
  }

  lemma AwaiterStepLowersRank(s: State, a: Action)
    requires Inv(s) && Enabled(s, a)
    requires a.Enter? || a.ProbeSynchronously? || a.CheckDone? || a.AskForNotice? || a.Recheck?
    ensures Rank(Apply(s, a)) < Rank(s)
  {
    TotalUpdate(s.awaiters, |s.awaiters|, a.awaiter, Apply(s, a).awaiters[a.awaiter], AwaiterRank);
  }

  /** Every step brings the run nearer its end. */
  lemma StepLowersRank(s: State, a: Action)
    requires Inv(s) && Enabled(s, a)
    ensures Rank(Apply(s, a)) < Rank(s)
  {
    match a {
      case Swap(i) => TotalUpdate(s.starters, |s.starters|, i, Apply(s, a).starters[i], StarterRank);
      case Spawn(i) =>
        TotalUpdate(s.starters, |s.starters|, i, Started, StarterRank);
        TotalAppend(s.workers, Probing, |s.workers|, WorkerRank);
      case Stop(w, _) => TotalUpdate(s.workers, |s.workers|, w, Signalling, WorkerRank);
      case Notify(w, waiter) =>
        TotalUpdate(s.workers, |s.workers|, w, Gone, WorkerRank);
        if waiter.Some? {
          TotalUpdate(s.awaiters, |s.awaiters|, waiter.value, Woken, AwaiterRank);
        }
      case _ => AwaiterStepLowersRank(s, a);
    }
  }

  lemma {:induction false} RankDrops(states: seq<State>, actions: seq<Action>, k: nat)
    requires IsRun(states, actions) && Initial(states[0]) && k < |states|
    ensures Rank(states[k]) + k <= Rank(states[0])
  {
    if k > 0 {
      RankDrops(states, actions, k - 1);
      RunKeepsInv(states, actions, k - 1);
      StepLowersRank(states[k - 1], actions[k - 1]);
    }
  }

  /** No run goes on for ever: its length is bounded by the number of callers. */
  lemma RunsAreBounded(states: seq<State>, actions: seq<Action>)
    requires IsRun(states, actions) && Initial(states[0])
    ensures |actions| <= 4 * |states[0].starters| + 5 * |states[0].awaiters|
  {
    var s := states[0];
    RankDrops(states, actions, |actions|);
    TotalConstant(s.starters, |s.starters|, StarterRank, 4);
    TotalConstant(s.awaiters, |s.awaiters|, AwaiterRank, 5);
  }

  /** With one awaiter waiting at a time, every run that goes as far as it can
      releases every awaiter, whether or not the worker panics. */
  lemma SuccessiveAwaitersReturn(states: seq<State>, actions: seq<Action>)
    requires IsRun(states, actions) && Initial(states[0]) && Terminal(states[|actions|])
    requires forall k :: 0 <= k < |states| ==> OneAtATime(states[k])
    ensures forall j :: 0 <= j < |states[|actions|].awaiters| ==> states[|actions|].awaiters[j].Returned?
  {
    OneAtATimeChecks(states, actions, |actions|);
    EveryoneReturnsIff(states, actions);
  }

  // ---------- Which configurations can hang ----------

  /** Some run from `s` that goes as far as it can leaves an awaiter waiting. */
  ghost predicate MayHang(s: State) {
    exists states: seq<State>, actions: seq<Action> ::
      IsRun(states, actions) && states[0] == s && Terminal(states[|actions|]) && SomeoneBlocked(states[|actions|])
  }

  lemma Extended(states: seq<State>, actions: seq<Action>, a: Action)
    requires IsRun(states, actions) && Enabled(states[|actions|], a)
    ensures IsRun(states + [Apply(states[|actions|], a)], actions + [a])
  {
  }

  /** Every run goes on to one that can go no further, losing no late check. */
  lemma {:induction false} RunOut(states: seq<State>, actions: seq<Action>)
    returns (allStates: seq<State>, allActions: seq<Action>)
    requires IsRun(states, actions) && Inv(states[|actions|])
    ensures IsRun(allStates, allActions) && allStates[0] == states[0] && Terminal(allStates[|allActions|])
    ensures Inv(allStates[|allActions|])
    ensures CommittedCount(allStates[|allActions|]) >= CommittedCount(states[|actions|])
    decreases Rank(states[|actions|])
  {
    var s := states[|actions|];
    if a :| Enabled(s, a) {
      Extended(states, actions, a);
      StepKeepsInv(s, a);
      StepLowersRank(s, a);
      StepCommits(s, a);
      allStates, allActions := RunOut(states + [Apply(s, a)], actions + [a]);
    } else {
      allStates, allActions := states, actions;
    }
  }

  /** Callers neither come nor go, and only a starter starts the probe. */
  lemma {:induction false} CallersStay(states: seq<State>, actions: seq<Action>, k: nat)
    requires IsRun(states, actions) && Initial(states[0]) && k < |states|
    ensures |states[k].starters| == |states[0].starters| && |states[k].awaiters| == |states[0].awaiters|
    ensures states[k].started ==> |states[0].starters| >= 1
  {
    if k > 0 {
      CallersStay(states, actions, k - 1);
    }
  }

  /** A starter and two awaiters that both look at the flag before the worker is
      done: the single notification releases one, and the other waits for ever. */
  lemma OverlappingAwaitersHang(s: State)
    requires Initial(s) && |s.starters| >= 1 && |s.awaiters| >= 2
    ensures MayHang(s)
  {
    InitialInv(s);
    var actions := [Swap(0), Enter(0), Enter(1), CheckDone(0), CheckDone(1)];
    var s1 := Apply(s, Swap(0));
    var s2 := Apply(s1, Enter(0));
    var s3 := Apply(s2, Enter(1));
    var s4 := Apply(s3, CheckDone(0));
    var s5 := Apply(s4, CheckDone(1));
    var states := [s, s1, s2, s3, s4, s5];
    assert IsRun(states, actions);
    RunKeepsInv(states, actions, 5);
    StepCommits(s, Swap(0));
    StepCommits(s1, Enter(0));
    StepCommits(s2, Enter(1));
    StepCommits(s3, CheckDone(0));
    StepCommits(s4, CheckDone(1));
    var allStates, allActions := RunOut(states, actions);
    StuckAwaiters(allStates[|allActions|]);
    NobodyBlocked(allStates[|allActions|]);
  }

  /** An awaiter can be left waiting exactly if there is a starter and there are
      at least two awaiters. */
  lemma MayHangIff(s: State)
    requires Initial(s)
    ensures MayHang(s) <==> |s.starters| >= 1 && |s.awaiters| >= 2
  {
    if MayHang(s) {
      var states: seq<State>, actions: seq<Action> :|
        IsRun(states, actions) && states[0] == s && Terminal(states[|actions|]) && SomeoneBlocked(states[|actions|]);
      var last := states[|actions|];
      RunKeepsInv(states, actions, |actions|);
      CallersStay(states, actions, |actions|);
      StuckAwaiters(last);
      NobodyBlocked(last);
    }
    if |s.starters| >= 1 && |s.awaiters| >= 2 {
      OverlappingAwaitersHang(s);
    }
  }

  // ---------- Which call probes for itself ----------

  /** What an awaiter can have come to, by the call it made. */
  predicate Fits(call: Call, a: Awaiter) {
    match a
    case Entering(c) => c == call
    case SelfProbing => call.Await?
    case Returned(ProbedItself) => call.Await?
    case Returned(NotStarted) => call.Finish?
    case _ => true
  }

  lemma StepFits(s: State, a: Action, j: nat, call: Call)
    requires Enabled(s, a) && j < |s.awaiters| && Fits(call, s.awaiters[j])
    ensures |Apply(s, a).awaiters| == |s.awaiters| && Fits(call, Apply(s, a).awaiters[j])
  {
  }

  /** An awaiter that finds the probe not started probes for itself if it awaits
      the probe, and returns at once if it only lets it finish. */
  lemma {:induction false} CallsAreKept(states: seq<State>, actions: seq<Action>, k: nat, j: nat)
    requires IsRun(states, actions) && Initial(states[0]) && k < |states| && j < |states[0].awaiters|
    ensures |states[k].awaiters| == |states[0].awaiters|
    ensures Fits(states[0].awaiters[j].call, states[k].awaiters[j])
  {
    if k > 0 {
      CallsAreKept(states, actions, k - 1, j);
      StepFits(states[k - 1], actions[k - 1], j, states[0].awaiters[j].call);
    }
  }

  /** Without a starter nobody waits: every awaiting call has probed for itself,
      and every finishing call has returned. */
  lemma NothingStarted(states: seq<State>, actions: seq<Action>, j: nat)
    requires IsRun(states, actions) && Initial(states[0]) && states[0].starters == [] && j < |states[0].awaiters|
    requires Terminal(states[|actions|])
    ensures j < |states[|actions|].awaiters|
    ensures states[|actions|].awaiters[j] == Returned(if states[0].awaiters[j].call.Await? then ProbedItself else NotStarted)
  {
    CallersStay(states, actions, |actions|);
    RunKeepsInv(states, actions, |actions|);
    TerminalShape(states[|actions|]);
    CallsAreKept(states, actions, |actions|, j);
  }
}
