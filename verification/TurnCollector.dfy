/** Collecting the output of one turn from the app-server's event stream.

    The stream interleaves this turn's events with those of other threads and
    turns, server requests, MCP notifications, lag reports and steering. */
module TurnCollector {
  import opened Names
  import opened Json
  import opened Text
  import opened McpStartup
  import opened Sequences
  import Runs = McpStartupRuns

  /** The methods the runtime tells apart; any other method name is `Other`. */
  datatype Topic =
    | AgentMessageDelta
    | TurnCompleted
    | ThreadErrored
    | McpServerStatusUpdated
    | CommandExecutionApproval
    | FileChangeApproval
    | Other(name: string)

  function TopicOf(name: string): Topic {
    if name == "item/agentMessage/delta" then AgentMessageDelta
    else if name == "turn/completed" then TurnCompleted
    else if name == "error" then ThreadErrored
    else if name == "mcpServerStatus/updated" then McpServerStatusUpdated
    else if name == "item/commandExecution/requestApproval" then CommandExecutionApproval
    else if name == "item/fileChange/requestApproval" then FileChangeApproval
    else Other(name)
  }

  function NameOf(topic: Topic): string {
    match topic
    case AgentMessageDelta => "item/agentMessage/delta"
    case TurnCompleted => "turn/completed"
    case ThreadErrored => "error"
    case McpServerStatusUpdated => "mcpServerStatus/updated"
    case CommandExecutionApproval => "item/commandExecution/requestApproval"
    case FileChangeApproval => "item/fileChange/requestApproval"
    case Other(name) => name
  }

  /** The topic keeps the method's name, and each known name has its own topic. */
  lemma TopicsAreNames(name: string, topic: Topic)
    ensures NameOf(TopicOf(name)) == name
    ensures !topic.Other? ==> TopicOf(NameOf(topic)) == topic
  {
    if !topic.Other? {
      KnownTopics();
    }
  }

  lemma KnownTopics()
    ensures TopicOf("item/agentMessage/delta") == AgentMessageDelta
    ensures TopicOf("turn/completed") == TurnCompleted
    ensures TopicOf("error") == ThreadErrored
    ensures TopicOf("mcpServerStatus/updated") == McpServerStatusUpdated
    ensures TopicOf("item/commandExecution/requestApproval") == CommandExecutionApproval
    ensures TopicOf("item/fileChange/requestApproval") == FileChangeApproval
  {
  }

  /** An event as the client delivers it. */
  datatype ServerEvent = ServerEvent(name: string, params: Json, id: Option<Json>)
  {
    function Topic(): Topic { TopicOf(name) }
  }

  /** What the receive loop sees next.  `reply` is the decision the approval
      prompt would give for the event, None if prompting or answering fails;
      `accepted` is whether the server took a steering message. */
  datatype Item =
    | Arrived(event: ServerEvent, reply: Option<Json>)
    | Lagged
    | Steered(accepted: bool)

  datatype Failure =
    | TurnEnded(status: string, message: string)
    | ThreadError(message: string)
    | ApprovalFailed
    | SteeringFailed
    | LostConnection

  datatype Outcome = Output(text: string) | Failed(failure: Failure)

  datatype Answer = Answer(requestId: Json, decision: Json)

  // ---------- Notifications from MCP servers ----------

  function ParseNotification(e: ServerEvent): Option<Update> {
    if e.id.Some? || !e.Topic().McpServerStatusUpdated? then None
    else
      var name := Get(e.params, "name");
      if name.None? || !name.value.Str? then None
      else
        var status := Get(e.params, "status");
        if status.None? || !status.value.Str? then None
        else
          var server, word := name.value.text, status.value.text;
          if word == "starting" || word == "Starting" then Some(Update(server, Starting))
          else if word == "ready" || word == "Ready" then Some(Update(server, Ready))
          else if word == "failed" || word == "Failed" then
            var error := Get(e.params, "error");
            Some(Update(server, Status.Failed(
              if error.Some? && error.value.Str? then error.value.text
              else "MCP client for `" + server + "` failed to start")))
          else if word == "cancelled" || word == "Cancelled" then Some(Update(server, Cancelled))
          else None
  }

  function StatusWord(status: Status, capital: bool): string {
    match status
    case Starting => if capital then "Starting" else "starting"
    case Ready => if capital then "Ready" else "ready"
    case Failed(_) => if capital then "Failed" else "failed"
    case Cancelled => if capital then "Cancelled" else "cancelled"
  }

  function Notification(u: Update, capital: bool): ServerEvent {
    var fields := map["name" := Str(u.server), "status" := Str(StatusWord(u.status, capital))];
    ServerEvent("mcpServerStatus/updated",
                Obj(if u.status.Failed? then fields["error" := Str(u.status.error)] else fields),
                None)
  }

  /** A notification written in either spelling is read back as the update it
      reports; as a request, or under another method, it is not read at all. */
  lemma NotificationRoundTrip(u: Update, capital: bool, name: string, id: Option<Json>)
    ensures ParseNotification(Notification(u, capital)) == Some(u)
    ensures ParseNotification(ServerEvent(name, Notification(u, capital).params, id)).Some? <==>
            id.None? && name == "mcpServerStatus/updated"
  {
    var fields := Notification(u, capital).params.fields;
    assert fields["name"] == Str(u.server) && fields["status"] == Str(StatusWord(u.status, capital));
    match u.status {
      case Starting => assert StatusWord(u.status, capital)[0] in {'s', 'S'};
      case Ready => assert StatusWord(u.status, capital)[0] in {'r', 'R'};
      case Failed(_) => assert StatusWord(u.status, capital)[0] in {'f', 'F'};
      case Cancelled => assert StatusWord(u.status, capital)[0] in {'c', 'C'};
    }
  }

  // ---------- What one item means to a turn ----------

  predicate OfThread(e: ServerEvent, thread: string) {
    AsStr(At(e.params, "threadId")) == Some(thread)
  }

  predicate OfTurn(e: ServerEvent, turn: string) {
    AsStr(At(e.params, "turnId")) == Some(turn)
  }

  predicate CompletesTurn(e: ServerEvent, turn: string) {
    AsStr(At(At(e.params, "turn"), "id")) == Some(turn)
  }

  predicate ApprovalRequestMatches(e: ServerEvent, thread: string, turn: string) {
    (e.Topic().CommandExecutionApproval? || e.Topic().FileChangeApproval?) && OfThread(e, thread) && OfTurn(e, turn)
  }

  function StrOr(value: Json, default: string): string {
    if value.Str? then value.text else default
  }

  /** The text the item adds to the turn's output. */
  function DeltaOf(item: Item, thread: string, turn: string): string {
    if item.Arrived? && item.event.id.None? && item.event.Topic().AgentMessageDelta?
       && OfThread(item.event, thread) && OfTurn(item.event, turn)
    then StrOr(At(item.event.params, "delta"), "") else ""
  }

  /** How the item ends the collection, if it does; None inside Some is success. */
  function EndingOf(item: Item, thread: string, turn: string): Option<Option<Failure>> {
    match item
    case Lagged => None
    case Steered(accepted) => if accepted then None else Some(Some(SteeringFailed))
    case Arrived(e, reply) =>
      if e.id.Some? then
        if ApprovalRequestMatches(e, thread, turn) && reply.None? then Some(Some(ApprovalFailed)) else None
      else if !OfThread(e, thread) then None
      else if e.Topic().TurnCompleted? && CompletesTurn(e, turn) then
        var status := StrOr(At(At(e.params, "turn"), "status"), "unknown");
        if status == "completed" then Some(None)
        else Some(Some(TurnEnded(status, StrOr(At(At(At(e.params, "turn"), "error"), "message"), "turn failed"))))
      else if e.Topic().ThreadErrored? then
        Some(Some(ThreadError(StrOr(At(At(e.params, "error"), "message"), "Codex turn failed"))))
      else None
  }

  function AnswerOf(item: Item, thread: string, turn: string): seq<Answer> {
    if item.Arrived? && item.event.id.Some? && item.reply.Some? && ApprovalRequestMatches(item.event, thread, turn)
    then [Answer(item.event.id.value, item.reply.value)] else []
  }

  function TrackerEventOf(item: Item): seq<Event> {
    match item
    case Lagged => [Lag]
    case Steered(_) => []
    case Arrived(e, _) =>
      var update := ParseNotification(e);
      if update.Some? then [Report(update.value)] else []
  }

  // ---------- What a stream means to a turn ----------

  /** What `reading` makes of the first `n` items, in order. */
  function Gather<T>(items: seq<Item>, n: nat, reading: Item -> seq<T>): seq<T>
    requires n <= |items|
  {
    if n == 0 then [] else Gather(items, n - 1, reading) + reading(items[n - 1])
  }

  function Ends(thread: string, turn: string): Item -> bool {
    item => EndingOf(item, thread, turn).Some?
  }

  function DeltaReader(thread: string, turn: string): Item -> string {
    item => DeltaOf(item, thread, turn)
  }

  function AnswerReader(thread: string, turn: string): Item -> seq<Answer> {
    item => AnswerOf(item, thread, turn)
  }

  /** The position of the item that ends the turn, or the stream's length. */
  function FirstEnd(items: seq<Item>, thread: string, turn: string): (n: nat)
    ensures n <= |items| && (n < |items| ==> EndingOf(items[n], thread, turn).Some?)
  {
    FirstMeaning(items, Ends(thread, turn), 0);
    First(items, Ends(thread, turn), 0)
  }

  function Deltas(items: seq<Item>, n: nat, thread: string, turn: string): string
    requires n <= |items|
  {
    Gather(items, n, DeltaReader(thread, turn))
  }

  function Answers(items: seq<Item>, n: nat, thread: string, turn: string): seq<Answer>
    requires n <= |items|
  {
    Gather(items, n, AnswerReader(thread, turn))
  }

  function TrackerEvents(items: seq<Item>, n: nat): seq<Event>
    requires n <= |items|
  {
    Gather(items, n, TrackerEventOf)
  }

  function OutcomeOf(items: seq<Item>, thread: string, turn: string): Outcome {
    var n := FirstEnd(items, thread, turn);
    if n == |items| then Outcome.Failed(LostConnection)
    else
      var ending := EndingOf(items[n], thread, turn).value;
      if ending.Some? then Outcome.Failed(ending.value)
      else Output(TrimEnd(Deltas(items, n, thread, turn)))
  }

  // ---------- The receive loop ----------

  /** The tracker has been fed `events` since `start` and has said `messages`. */
  ghost predicate Fed(tracker: Tracker, start: Phase, events: seq<Event>, messages: seq<string>)
    reads tracker
  {
    && tracker.View() == Runs.Final(tracker.expected, start, events)
    && messages == Texts(Runs.Messages(tracker.expected, start, events))
  }

  /** Feeds a startup notification to the tracker; `before` are the tracker
      events already taken from the stream since `start`, `said` its messages. */
  method HandleStartupNotification(event: ServerEvent, tracker: Tracker,
                                   ghost start: Phase, ghost before: seq<Event>, ghost said: seq<string>)
    returns (handled: bool, emitted: seq<string>)
    requires tracker.Valid() && event.id.None?
    requires Fed(tracker, start, before, said)
    modifies tracker
    ensures tracker.Valid()
    ensures handled <==> ParseNotification(event).Some?
    ensures !handled ==> emitted == [] && tracker.View() == old(tracker.View())
    ensures Fed(tracker, start, before + TrackerEventOf(Arrived(event, None)), said + emitted)
  {
    var update := ParseNotification(event);
    if update.None? {
      assert before + [] == before && said + [] == said;
      return false, [];
    }
    handled := true;
    Runs.FinalSnoc(tracker.expected, start, before, Report(update.value));
    TextsConcat(Runs.Messages(tracker.expected, start, before),
                Emitted(tracker.expected, tracker.View(), Report(update.value)));
    emitted := tracker.RecordUpdate(update.value.server, update.value.status);
  }

  /** The dispatch on the topic of an event that is neither a request nor a
      startup notification. */
  method ReadTurnEvent(event: ServerEvent, ghost reply: Option<Json>, thread: string, turn: string)
    returns (delta: string, ended: Option<Option<Failure>>)
    requires event.id.None?
    ensures delta == DeltaOf(Arrived(event, reply), thread, turn)
    ensures ended == EndingOf(Arrived(event, reply), thread, turn)
  {
    delta, ended := "", None;
    if event.Topic().AgentMessageDelta? && OfThread(event, thread) && OfTurn(event, turn) {
      var piece := At(event.params, "delta");
      if piece.Str? {
        delta := piece.text;
      }
    } else if event.Topic().TurnCompleted? && OfThread(event, thread) && CompletesTurn(event, turn) {
      var status := StrOr(At(At(event.params, "turn"), "status"), "unknown");
      if status != "completed" {
        var message := StrOr(At(At(At(event.params, "turn"), "error"), "message"), "turn failed");
        ended := Some(Some(TurnEnded(status, message)));
      } else {
        ended := Some(None);
      }
    } else if event.Topic().ThreadErrored? && OfThread(event, thread) {
      ended := Some(Some(ThreadError(StrOr(At(At(event.params, "error"), "message"), "Codex turn failed"))));
    }
  }

  /** One pass of the receive loop over one item. */
  method TakeItem(item: Item, tracker: Tracker, thread: string, turn: string,
                  ghost start: Phase, ghost before: seq<Event>, ghost said: seq<string>)
    returns (delta: string, answered: seq<Answer>, emitted: seq<string>, ended: Option<Option<Failure>>)
    requires tracker.Valid()
    requires Fed(tracker, start, before, said)
    modifies tracker
    ensures tracker.Valid()
    ensures delta == DeltaOf(item, thread, turn)
    ensures answered == AnswerOf(item, thread, turn)
    ensures ended == EndingOf(item, thread, turn)
    ensures Fed(tracker, start, before + TrackerEventOf(item), said + emitted)
  {
    delta, answered, emitted, ended := "", [], [], None;
    assert before + [] == before && said + [] == said;
    match item {
      case Lagged =>
        Runs.FinalSnoc(tracker.expected, start, before, Lag);
        TextsConcat(Runs.Messages(tracker.expected, start, before), Emitted(tracker.expected, tracker.View(), Lag));
        emitted := tracker.FinishAfterLag();
      case Steered(accepted) =>
        if !accepted {
          ended := Some(Some(SteeringFailed));
        }
      case Arrived(event, reply) =>
        if event.id.Some? {
          if ApprovalRequestMatches(event, thread, turn) {
            if reply.None? {
              ended := Some(Some(ApprovalFailed));
            } else {
              answered := [Answer(event.id.value, reply.value)];
            }
          }
          return;
        }
        var handled;
        handled, emitted := HandleStartupNotification(event, tracker, start, before, said);
        if handled {
          return;
        }
        delta, ended := ReadTurnEvent(event, reply, thread, turn);
    }
  }

  lemma EndingAddsNothing(item: Item, thread: string, turn: string)
    requires EndingOf(item, thread, turn).Some?
    ensures DeltaOf(item, thread, turn) == "" && AnswerOf(item, thread, turn) == [] && TrackerEventOf(item) == []
  {
  }

  /** What the loop holds after `i` items, none of which ended the turn. */
  ghost predicate Collected(items: seq<Item>, i: nat, thread: string, turn: string, output: string,
                            answers: seq<Answer>)
    requires i <= |items|
  {
    && FirstEnd(items, thread, turn) == First(items, Ends(thread, turn), i)
    && output == Deltas(items, i, thread, turn)
    && answers == Answers(items, i, thread, turn)
  }

  lemma CollectedStep(items: seq<Item>, i: nat, thread: string, turn: string, output: string, answers: seq<Answer>)
    requires i < |items| && Collected(items, i, thread, turn, output, answers)
    requires EndingOf(items[i], thread, turn).None?
    ensures Collected(items, i + 1, thread, turn, output + DeltaOf(items[i], thread, turn),
                      answers + AnswerOf(items[i], thread, turn))
  {
  }

  /** The outcome once item `i` ends the turn. */
  lemma EndsThere(items: seq<Item>, i: nat, thread: string, turn: string, output: string, answers: seq<Answer>)
    requires i < |items| && Collected(items, i, thread, turn, output, answers)
    requires EndingOf(items[i], thread, turn).Some?
    ensures FirstEnd(items, thread, turn) == i
    ensures OutcomeOf(items, thread, turn) == Concluded(EndingOf(items[i], thread, turn), output)
  {
  }

  /** The outcome once the stream has run out. */
  lemma RunsOut(items: seq<Item>, thread: string, turn: string, output: string, answers: seq<Answer>)
    requires Collected(items, |items|, thread, turn, output, answers)
    ensures FirstEnd(items, thread, turn) == |items|
    ensures OutcomeOf(items, thread, turn) == Concluded(None, output)
  {
  }

  /** The outcome, from how the collection ended and the output so far. */
  function Concluded(ending: Option<Option<Failure>>, output: string): Outcome {
    match ending
    case None => Outcome.Failed(LostConnection)
    case Some(Some(failure)) => Outcome.Failed(failure)
    case Some(None) => Output(TrimEnd(output))
  }

  /** Reads `items` until the turn ends; running out of items is a closed channel. */
  method CollectTurnOutput(tracker: Tracker, items: seq<Item>, thread: string, turn: string)
    returns (outcome: Outcome, answers: seq<Answer>, warnings: seq<string>)
    requires tracker.Valid()
    modifies tracker
    ensures tracker.Valid()
    ensures outcome == OutcomeOf(items, thread, turn)
    ensures var n := FirstEnd(items, thread, turn);
            && answers == Answers(items, n, thread, turn)
            && Fed(tracker, old(tracker.View()), TrackerEvents(items, n), warnings)
  {
    var output := "";
    answers, warnings := [], [];
    ghost var start, events := tracker.View(), [];
    var i := 0;
    while i < |items|
      invariant i <= |items| && tracker.Valid()
      invariant Collected(items, i, thread, turn, output, answers)
      invariant events == TrackerEvents(items, i) && Fed(tracker, start, events, warnings)
    {
      var item := items[i];
      var delta, answered, emitted, ending;
      delta, answered, emitted, ending := TakeItem(item, tracker, thread, turn, start, events, warnings);
      if ending.Some? {
        EndingAddsNothing(item, thread, turn);
        EndsThere(items, i, thread, turn, output, answers);
        assert events + [] == events;
        return Concluded(ending, output), answers, warnings;
      }
      CollectedStep(items, i, thread, turn, output, answers);
      output := output + delta;
      answers := answers + answered;
      warnings := warnings + emitted;
      events := events + TrackerEventOf(item);
      i := i + 1;
    }
    RunsOut(items, thread, turn, output, answers);
    outcome := Concluded(None, output);
  }

  // ---------- Projection ----------

  /** Items that belong to somebody else: lag reports, accepted steering, MCP
      notifications, another thread's events and requests, another turn's
      deltas, completions and requests. */
  predicate Foreign(item: Item, thread: string, turn: string) {
    match item
    case Lagged => true
    case Steered(accepted) => accepted
    case Arrived(e, _) =>
      || ParseNotification(e).Some?
      || !OfThread(e, thread)
      || (e.id.Some? && !OfTurn(e, turn))
      || (e.Topic().AgentMessageDelta? && !OfTurn(e, turn))
      || (e.Topic().TurnCompleted? && !CompletesTurn(e, turn))
  }

  /** The items among the first `n` that satisfy `keep`. */
  function Keep(items: seq<Item>, n: nat, keep: Item -> bool): seq<Item>
    requires n <= |items|
  {
    if n == 0 then []
    else if keep(items[n - 1]) then Keep(items, n - 1, keep) + [items[n - 1]]
    else Keep(items, n - 1, keep)
  }

  lemma {:induction false} KeptAreAmong(items: seq<Item>, n: nat, keep: Item -> bool, k: nat) returns (i: nat)
    requires n <= |items| && k < |Keep(items, n, keep)|
    ensures i < n && Keep(items, n, keep)[k] == items[i] && keep(items[i])
  {
    if keep(items[n - 1]) && k == |Keep(items, n, keep)| - 1 {
      i := n - 1;
    } else {
      i := KeptAreAmong(items, n - 1, keep, k);
    }
  }

  /** Dropping any foreign items leaves the outcome and the answers unchanged. */
  lemma TurnProjection(items: seq<Item>, keep: Item -> bool, thread: string, turn: string)
    requires forall i :: 0 <= i < |items| && !keep(items[i]) ==> Foreign(items[i], thread, turn)
    ensures var kept := Keep(items, |items|, keep);
            && OutcomeOf(kept, thread, turn) == OutcomeOf(items, thread, turn)
            && Answers(kept, FirstEnd(kept, thread, turn), thread, turn) ==
               Answers(items, FirstEnd(items, thread, turn), thread, turn)
  {
    forall i | 0 <= i < |items| && !keep(items[i])
      ensures !Ends(thread, turn)(items[i])
      ensures DeltaReader(thread, turn)(items[i]) == "" && AnswerReader(thread, turn)(items[i]) == []
    {
      ForeignIsSilent(items[i], thread, turn);
    }
    KeptReadings(items, keep, Ends(thread, turn), DeltaReader(thread, turn));
    KeptReadings(items, keep, Ends(thread, turn), AnswerReader(thread, turn));
  }

  lemma ForeignIsSilent(item: Item, thread: string, turn: string)
    requires Foreign(item, thread, turn)
    ensures EndingOf(item, thread, turn).None?
    ensures DeltaOf(item, thread, turn) == "" && AnswerOf(item, thread, turn) == []
  {
  }

  lemma {:induction false} KeepPrefix(items: seq<Item>, m: nat, n: nat, keep: Item -> bool)
    requires m <= n <= |items|
    ensures Keep(items, m, keep) <= Keep(items, n, keep)
  {
    if m < n {
      KeepPrefix(items, m, n - 1, keep);
    }
  }

  lemma {:induction false} GatherPrefix<T>(a: seq<Item>, b: seq<Item>, n: nat, reading: Item -> seq<T>)
    requires n <= |a| && a <= b
    ensures Gather(a, n, reading) == Gather(b, n, reading)
  {
    if n > 0 {
      GatherPrefix(a, b, n - 1, reading);
    }
  }

  lemma GatherSnoc<T>(items: seq<Item>, item: Item, reading: Item -> seq<T>)
    ensures Gather(items + [item], |items| + 1, reading) == Gather(items, |items|, reading) + reading(item)
  {
    GatherPrefix(items, items + [item], |items|, reading);
  }

  lemma {:induction false} GatherKept<T>(items: seq<Item>, n: nat, keep: Item -> bool, reading: Item -> seq<T>)
    requires n <= |items|
    requires forall i :: 0 <= i < n && !keep(items[i]) ==> reading(items[i]) == []
    ensures Gather(Keep(items, n, keep), |Keep(items, n, keep)|, reading) == Gather(items, n, reading)
  {
    if n > 0 {
      var kept, item := Keep(items, n - 1, keep), items[n - 1];
      GatherKept(items, n - 1, keep, reading);
      if keep(item) {
        GatherSnoc(kept, item, reading);
      } else {
        NothingAdded(Gather(items, n - 1, reading), reading(item));
      }
    }
  }

  lemma NothingAdded<T>(xs: seq<T>, ys: seq<T>)
    requires ys == []
    ensures xs + ys == xs
  {
  }

  lemma KeptReadings<T>(items: seq<Item>, keep: Item -> bool, ends: Item -> bool, reading: Item -> seq<T>)
    requires forall i :: 0 <= i < |items| && !keep(items[i]) ==> !ends(items[i]) && reading(items[i]) == []
    ensures var kept := Keep(items, |items|, keep);
            var m, n := First(kept, ends, 0), First(items, ends, 0);
            && Gather(kept, m, reading) == Gather(items, n, reading)
            && (m < |kept| <==> n < |items|)
            && (m < |kept| ==> kept[m] == items[n])
  {
    var kept, n := Keep(items, |items|, keep), First(items, ends, 0);
    var before := Keep(items, n, keep);
    FirstMeaning(items, ends, 0);
    KeepPrefix(items, n, |items|, keep);
    GatherKept(items, n, keep, reading);
    GatherPrefix(before, kept, |before|, reading);
    forall k | 0 <= k < |before| ensures !ends(kept[k]) {
      var i := KeptAreAmong(items, n, keep, k);
      assert kept[k] == before[k] == items[i];
    }
    if n < |items| {
      KeepPrefix(items, n + 1, |items|, keep);
      assert Keep(items, n + 1, keep) == before + [items[n]];
    }
    FirstIs(kept, ends, 0, |before|);
  }

  lemma BeforeTheEnd(items: seq<Item>, k: nat, thread: string, turn: string)
    requires k < FirstEnd(items, thread, turn)
    ensures EndingOf(items[k], thread, turn).None?
  {
    FirstMeaning(items, Ends(thread, turn), 0);
    assert !Ends(thread, turn)(items[k]);
  }

  function Asks(thread: string, turn: string): Item -> bool {
    (item: Item) => item.Arrived? && item.event.id.Some? && ApprovalRequestMatches(item.event, thread, turn)
  }

  /** Every matching request consumed before the end is answered, in order:
      the answers are those of the requests alone, one each. */
  lemma {:induction false} AnswersAreTheRequests(items: seq<Item>, n: nat, thread: string, turn: string)
    requires n <= FirstEnd(items, thread, turn)
    ensures var requests := Keep(items, n, Asks(thread, turn));
            var answers := Answers(items, n, thread, turn);
            && |answers| == |requests|
            && forall k :: 0 <= k < |answers| ==>
                 requests[k].Arrived? && requests[k].event.id == Some(answers[k].requestId)
                 && requests[k].reply == Some(answers[k].decision)
  {
    if n > 0 {
      AnswersAreTheRequests(items, n - 1, thread, turn);
      BeforeTheEnd(items, n - 1, thread, turn);
      AnsweredIffAsked(items[n - 1], thread, turn);
    }
  }

  lemma AnsweredIffAsked(item: Item, thread: string, turn: string)
    requires EndingOf(item, thread, turn).None?
    ensures Asks(thread, turn)(item) <==> AnswerOf(item, thread, turn) != []
    ensures Asks(thread, turn)(item) ==>
              item.reply.Some? && AnswerOf(item, thread, turn) == [Answer(item.event.id.value, item.reply.value)]
  {
  }
}
