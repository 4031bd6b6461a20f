/** What a turn yields, told from the JSON events the server sends. */
module TurnStreams {
  import opened Names
  import opened Json
  import opened Text
  import opened McpStartup
  import opened TurnCollector
  import opened Sequences

  /** What can happen on the stream.  `status` and `message` are absent from the
      event if None; `reply` is the decision on a request, None if it fails.
      A murmur is any event that is none of the others. */
  datatype Act =
    | Says(thread: string, turn: string, text: string)
    | Completes(thread: string, turn: string, status: Option<string>, message: Option<string>)
    | Errs(thread: string, message: Option<string>)
    | Requests(command: bool, thread: string, turn: string, id: Json, reply: Option<Json>)
    | Reports(update: Update, capital: bool)
    | Lags
    | Steers(accepted: bool)
    | Murmurs(event: ServerEvent, reply: Option<Json>)

  // ---------- The events ----------

  function Present(name: string, text: Option<string>): map<string, Json> {
    if text.Some? then map[name := Str(text.value)] else map[]
  }

  /** `{"threadId": …, "turnId": …, "delta": …}` and so on, as the server writes them. */
  function Encode(a: Act): Item {
    match a
    case Says(thread, turn, text) =>
      Arrived(ServerEvent("item/agentMessage/delta",
                          Obj(map["threadId" := Str(thread), "turnId" := Str(turn), "delta" := Str(text)]), None), None)
    case Completes(thread, turn, status, message) =>
      Arrived(ServerEvent("turn/completed",
                          Obj(map["threadId" := Str(thread), "turn" := Obj(TurnFields(turn, status, message))]), None), None)
    case Errs(thread, message) =>
      Arrived(ServerEvent("error",
                          Obj(map["threadId" := Str(thread), "error" := Obj(Present("message", message))]), None), None)
    case Requests(command, thread, turn, id, reply) =>
      Arrived(ServerEvent(if command then "item/commandExecution/requestApproval" else "item/fileChange/requestApproval",
                          Obj(map["threadId" := Str(thread), "turnId" := Str(turn)]), Some(id)), reply)
    case Reports(update, capital) => Arrived(Notification(update, capital), None)
    case Lags => Lagged
    case Steers(accepted) => Steered(accepted)
    case Murmurs(event, reply) => Arrived(event, reply)
  }

  /** A request must not ask for an approval, another event must not have a method
      that the receive loop knows. */
  predicate Proper(a: Act) {
    a.Murmurs? ==>
      if a.event.id.Some? then
        a.event.name !in ["item/commandExecution/requestApproval", "item/fileChange/requestApproval"]
      else a.event.name !in ["item/agentMessage/delta", "turn/completed", "error", "mcpServerStatus/updated"]
  }

  function TurnFields(turn: string, status: Option<string>, message: Option<string>): map<string, Json> {
    Present("status", status)["id" := Str(turn)]["error" := Obj(Present("message", message))]
  }

  function Stream(acts: seq<Act>): (items: seq<Item>)
    ensures |items| == |acts|
    ensures forall i :: 0 <= i < |acts| ==> items[i] == Encode(acts[i])
  {
    seq(|acts|, i requires 0 <= i < |acts| => Encode(acts[i]))
  }

  // ---------- What an act means to a turn ----------

  function Or(text: Option<string>, default: string): string {
    if text.Some? then text.value else default
  }

  predicate Finishes(a: Act, thread: string, turn: string) {
    match a
    case Completes(t, u, _, _) => t == thread && u == turn
    case Errs(t, _) => t == thread
    case Requests(_, t, u, _, reply) => t == thread && u == turn && reply.None?
    case Steers(accepted) => !accepted
    case _ => false
  }

  /** The outcome of a turn that `a` finishes after saying `said`. */
  function Verdict(a: Act, said: string): Outcome {
    match a
    case Completes(_, _, status, message) =>
      if status == Some("completed") then Output(TrimEnd(said))
      else Outcome.Failed(TurnEnded(Or(status, "unknown"), Or(message, "turn failed")))
    case Errs(_, message) => Outcome.Failed(ThreadError(Or(message, "Codex turn failed")))
    case Requests(_, _, _, _, _) => Outcome.Failed(ApprovalFailed)
    case Steers(_) => Outcome.Failed(SteeringFailed)
    case _ => Outcome.Failed(LostConnection)
  }

  function Said(a: Act, thread: string, turn: string): string {
    if a.Says? && a.thread == thread && a.turn == turn then a.text else ""
  }

  function Replied(a: Act, thread: string, turn: string): seq<Answer> {
    if a.Requests? && a.thread == thread && a.turn == turn && a.reply.Some? then [Answer(a.id, a.reply.value)] else []
  }

  function Told(a: Act): seq<Event> {
    match a
    case Reports(update, _) => [Report(update)]
    case Lags => [Lag]
    case _ => []
  }

  /** What `part` gives for the first `n` acts, in order. */
  function Along<T>(acts: seq<Act>, n: nat, part: Act -> seq<T>): seq<T>
    requires n <= |acts|
  {
    if n == 0 then [] else Along(acts, n - 1, part) + part(acts[n - 1])
  }

  // ---------- Reading the events ----------

  lemma SaysRead(thread: string, turn: string, text: string, t: string, u: string)
    ensures var item := Encode(Says(thread, turn, text));
            && DeltaOf(item, t, u) == (if thread == t && turn == u then text else "")
            && EndingOf(item, t, u) == None && AnswerOf(item, t, u) == [] && TrackerEventOf(item) == []
  {
    KnownTopics();
    var fields := Encode(Says(thread, turn, text)).event.params.fields;
    assert fields["threadId"] == Str(thread) && fields["turnId"] == Str(turn) && fields["delta"] == Str(text);
  }

  lemma ErrsRead(thread: string, message: Option<string>, t: string, u: string)
    ensures var item := Encode(Errs(thread, message));
            && DeltaOf(item, t, u) == "" && AnswerOf(item, t, u) == [] && TrackerEventOf(item) == []
            && EndingOf(item, t, u) ==
               if thread == t then Some(Some(ThreadError(Or(message, "Codex turn failed")))) else None
  {
    KnownTopics();
    var fields := Encode(Errs(thread, message)).event.params.fields;
    assert fields["threadId"] == Str(thread) && fields["error"] == Obj(Present("message", message));
    assert At(fields["error"], "message") == if message.Some? then Str(message.value) else Null;
  }

  lemma CompletesRead(thread: string, turn: string, status: Option<string>, message: Option<string>, t: string, u: string)
    ensures var item := Encode(Completes(thread, turn, status, message));
            && DeltaOf(item, t, u) == "" && AnswerOf(item, t, u) == [] && TrackerEventOf(item) == []
            && EndingOf(item, t, u) ==
               if thread != t || turn != u then None
               else if status == Some("completed") then Some(None)
               else Some(Some(TurnEnded(Or(status, "unknown"), Or(message, "turn failed"))))
  {
    KnownTopics();
    var fields := Encode(Completes(thread, turn, status, message)).event.params.fields;
    var inner := TurnFields(turn, status, message);
    assert fields["threadId"] == Str(thread) && fields["turn"] == Obj(inner);
    TurnFieldsRead(turn, status, message);
  }

  lemma TurnFieldsRead(turn: string, status: Option<string>, message: Option<string>)
    ensures var inner := Obj(TurnFields(turn, status, message));
            && At(inner, "id") == Str(turn)
            && At(inner, "status") == (if status.Some? then Str(status.value) else Null)
            && At(At(inner, "error"), "message") == if message.Some? then Str(message.value) else Null
  {
    assert "status" != "id" && "status" != "error" && "id" != "error" by {
      assert "status"[0] == 's' && "id"[0] == 'i' && "error"[0] == 'e';
    }
  }

  lemma RequestsRead(command: bool, thread: string, turn: string, id: Json, reply: Option<Json>, t: string, u: string)
    ensures var item := Encode(Requests(command, thread, turn, id, reply));
            var ours := thread == t && turn == u;
            && DeltaOf(item, t, u) == "" && TrackerEventOf(item) == []
            && AnswerOf(item, t, u) == (if ours && reply.Some? then [Answer(id, reply.value)] else [])
            && EndingOf(item, t, u) == if ours && reply.None? then Some(Some(ApprovalFailed)) else None
  {
    KnownTopics();
    var fields := Encode(Requests(command, thread, turn, id, reply)).event.params.fields;
    assert fields["threadId"] == Str(thread) && fields["turnId"] == Str(turn);
  }

  lemma ReportsRead(update: Update, capital: bool, t: string, u: string)
    ensures var item := Encode(Reports(update, capital));
            && DeltaOf(item, t, u) == "" && EndingOf(item, t, u) == None && AnswerOf(item, t, u) == []
            && TrackerEventOf(item) == [Report(update)]
  {
    KnownTopics();
    NotificationRoundTrip(update, capital, "mcpServerStatus/updated", None);
  }

  lemma MurmursRead(event: ServerEvent, reply: Option<Json>, t: string, u: string)
    requires Proper(Murmurs(event, reply))
    ensures DeltaOf(Arrived(event, reply), t, u) == "" && AnswerOf(Arrived(event, reply), t, u) == []
    ensures EndingOf(Arrived(event, reply), t, u).None? && TrackerEventOf(Arrived(event, reply)) == []
  {
    TopicsAreNames(event.name, event.Topic());
  }

  lemma ActRead(a: Act, thread: string, turn: string)
    requires Proper(a)
    ensures DeltaOf(Encode(a), thread, turn) == Said(a, thread, turn)
    ensures AnswerOf(Encode(a), thread, turn) == Replied(a, thread, turn)
    ensures TrackerEventOf(Encode(a)) == Told(a)
    ensures EndingOf(Encode(a), thread, turn).Some? <==> Finishes(a, thread, turn)
    ensures Finishes(a, thread, turn) ==>
              forall said :: Concluded(EndingOf(Encode(a), thread, turn), said) == Verdict(a, said)
  {
    match a {
      case Says(t, u, text) => SaysRead(t, u, text, thread, turn);
      case Completes(t, u, status, message) => CompletesRead(t, u, status, message, thread, turn);
      case Errs(t, message) => ErrsRead(t, message, thread, turn);
      case Requests(command, t, u, id, reply) => RequestsRead(command, t, u, id, reply, thread, turn);
      case Reports(update, capital) => ReportsRead(update, capital, thread, turn);
      case Lags =>
      case Steers(_) =>
      case Murmurs(event, reply) => MurmursRead(event, reply, thread, turn);
    }
  }

  /** A failure without a reason gets one that names the server, and of a server's
      notification only the eight words for a status are read. */
  lemma UnexplainedFailure(server: string, capital: bool, e: ServerEvent)
    ensures ParseNotification(ServerEvent("mcpServerStatus/updated",
                              Obj(map["name" := Str(server), "status" := Str(if capital then "Failed" else "failed")]),
                              None)) ==
            Some(Update(server, Status.Failed("MCP client for `" + server + "` failed to start")))
    ensures ParseNotification(e).Some? ==>
              e.params.Obj? && "name" in e.params.fields && e.params.fields["name"] == Str(ParseNotification(e).value.server)
              && "status" in e.params.fields
              && exists capital :: e.params.fields["status"] == Str(StatusWord(ParseNotification(e).value.status, capital))
  {
    FailureRead(server, if capital then "Failed" else "failed");
    if ParseNotification(e).Some? {
      var word, status := e.params.fields["status"], ParseNotification(e).value.status;
      assert word == Str(StatusWord(status, false)) || word == Str(StatusWord(status, true));
    }
  }

  lemma FailureRead(server: string, word: string)
    requires word in ["Failed", "failed"]
    ensures ParseNotification(ServerEvent("mcpServerStatus/updated", Obj(map["name" := Str(server), "status" := Str(word)]),
                                          None)) ==
            Some(Update(server, Status.Failed("MCP client for `" + server + "` failed to start")))
  {
    var fields: map<string, Json> := map["name" := Str(server), "status" := Str(word)];
    assert fields["name"] == Str(server) && fields["status"] == Str(word) && "error" !in fields;
    assert word[0] in {'f', 'F'};
  }

  // ---------- Streams ----------

  function Saying(thread: string, turn: string): Act -> string { a => Said(a, thread, turn) }

  function Replying(thread: string, turn: string): Act -> seq<Answer> { a => Replied(a, thread, turn) }

  lemma {:induction false} GatheredAlong<T>(items: seq<Item>, acts: seq<Act>, n: nat, read: Item -> seq<T>,
                                            part: Act -> seq<T>)
    requires n <= |acts| == |items| && forall k :: 0 <= k < n ==> read(items[k]) == part(acts[k])
    ensures Gather(items, n, read) == Along(acts, n, part)
  {
    if n > 0 {
      GatheredAlong(items, acts, n - 1, read, part);
    }
  }

  lemma StreamRead(acts: seq<Act>, n: nat, thread: string, turn: string)
    requires n <= |acts| && forall k :: 0 <= k < |acts| ==> Proper(acts[k])
    ensures Deltas(Stream(acts), n, thread, turn) == Along(acts, n, Saying(thread, turn))
    ensures Answers(Stream(acts), n, thread, turn) == Along(acts, n, Replying(thread, turn))
    ensures TrackerEvents(Stream(acts), n) == Along(acts, n, Told)
  {
    var items := Stream(acts);
    forall k | 0 <= k < n
      ensures DeltaReader(thread, turn)(items[k]) == Saying(thread, turn)(acts[k])
      ensures AnswerReader(thread, turn)(items[k]) == Replying(thread, turn)(acts[k])
      ensures TrackerEventOf(items[k]) == Told(acts[k])
    {
      ActRead(acts[k], thread, turn);
    }
    GatheredAlong(items, acts, n, DeltaReader(thread, turn), Saying(thread, turn));
    GatheredAlong(items, acts, n, AnswerReader(thread, turn), Replying(thread, turn));
    GatheredAlong(items, acts, n, TrackerEventOf, Told);
  }

  /** A turn runs until the first act that finishes it.  It yields what was said in
      it, right-trimmed, if that act is its completion with status `completed`,
      and otherwise the failure the act names; until then every request was
      answered and every report and lag reached the tracker, in order. */
  lemma StreamOutcome(acts: seq<Act>, n: nat, thread: string, turn: string)
    requires n < |acts| && Finishes(acts[n], thread, turn) && forall k :: 0 <= k < |acts| ==> Proper(acts[k])
    requires forall k :: 0 <= k < n ==> !Finishes(acts[k], thread, turn)
    ensures OutcomeOf(Stream(acts), thread, turn) == Verdict(acts[n], Along(acts, n, Saying(thread, turn)))
    ensures FirstEnd(Stream(acts), thread, turn) == n
    ensures Answers(Stream(acts), n, thread, turn) == Along(acts, n, Replying(thread, turn))
    ensures TrackerEvents(Stream(acts), n) == Along(acts, n, Told)
  {
    var items := Stream(acts);
    forall k | 0 <= k <= n ensures Ends(thread, turn)(items[k]) <==> k == n {
      ActRead(acts[k], thread, turn);
    }
    FirstIs(items, Ends(thread, turn), 0, n);
    StreamRead(acts, n, thread, turn);
    ActRead(acts[n], thread, turn);
  }

  /** A stream that ends before any such act is a lost connection. */
  lemma StreamLost(acts: seq<Act>, thread: string, turn: string)
    requires forall k :: 0 <= k < |acts| ==> Proper(acts[k]) && !Finishes(acts[k], thread, turn)
    ensures OutcomeOf(Stream(acts), thread, turn) == Outcome.Failed(LostConnection)
  {
    var items := Stream(acts);
    forall k | 0 <= k < |acts| ensures !Ends(thread, turn)(items[k]) {
      ActRead(acts[k], thread, turn);
    }
    FirstIs(items, Ends(thread, turn), 0, |acts|);
  }
}
