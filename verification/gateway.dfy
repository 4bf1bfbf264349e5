/** One call of the gateway's `POST /send` handler as a state machine.

    The handler checks the content type, connects to the broker (connection,
    channel, the shared task queue and an exclusive reply queue), draws a
    correlation id, arms a 10-second timer guarded by `gotResponse`,
    subscribes to the reply queue keeping only replies with its own id, and
    publishes the task. The awaited broker results, the incoming replies and
    the timer expiry are the events; what the handler does to the HTTP
    response and to the broker are the effects. */
module Gateway {

  import opened Wrappers
  import opened Messages
  import opened CorrelationId

  const JsonContentType: string := "application/json"
  const BadContentTypeText: string := "Content-Type must be application/json"
  const InternalErrorText: string := "Internal error"

  /** Express's default status, which `res.json` keeps because the reply
      path never sets `res.statusCode`. */
  const StatusOk: int := 200
  const StatusBadRequest: int := 400
  const StatusInternalError: int := 500

  /** What reaches the HTTP caller: `res.send(text)` or `res.json(message)`. */
  datatype Body = Text(text: string) | Json(message: Message)

  datatype Effect =
    | Respond(status: int, body: Body)
      /** `amqp.connect`, `createChannel` and both `assertQueue` calls. */
    | Connect
      /** `setTimeout(…, 10000)`. */
    | ArmTimer
      /** `channel.consume(reply.queue, …, { noAck: true })`. */
    | Subscribe(queue: string)
      /** `channel.sendToQueue(queue, body, { correlationId, replyTo })`. */
    | Publish(queue: string, content: Message, correlationId: string, replyTo: string)
    | CloseChannel
    | CloseConnection

  datatype Event =
      /** An HTTP request reaches the handler with this `content-type` header. */
    | Request(contentType: Option<string>, body: Message)
      /** All four broker steps succeeded; the broker named the exclusive
          reply queue, and `generateId` then consumes `draws`. */
    | Connected(replyQueue: string, draws: Draws)
      /** One of the four broker steps threw. */
    | ConnectFailed
      /** The reply-queue subscription delivers a message. */
    | Reply(correlationId: string, content: Message)
      /** The 10-second timer expires. */
    | TimerFired

  datatype Session =
      /** No request yet. */
    | Idle
      /** Valid request; awaiting the broker. */
    | Connecting(body: Message)
      /** Subscribed and published; awaiting replies and the timer. */
    | Waiting(correlationId: string, replyQueue: string, gotResponse: bool)
      /** The handler answered 400 or 500 and returned before arming a timer. */
    | Returned
      /** The timer fired: channel and connection are closed. */
    | Closed
  {
    /** No event can change the session or cause an effect any more. */
    predicate Terminal() {
      Returned? || Closed?
    }

    /** How far the handler has got; it never goes back to an earlier phase. */
    function Phase(): (p: nat)
      ensures p == 3 <==> Terminal()
    {
      match this
      case Idle => 0
      case Connecting(_) => 1
      case Waiting(_, _, _) => 2
      case Returned => 3
      case Closed => 3
    }
  }

  datatype Transition = Transition(next: Session, effects: seq<Effect>)

  /** The handler's reaction to one event. Events a phase does not await
      (a reply before the subscription exists, a second request) change
      nothing. */
  function Step(s: Session, e: Event): (t: Transition)
    ensures s.Terminal() ==> t == Transition(s, [])
    ensures s.Phase() <= t.next.Phase()
    ensures forall i, j :: 0 <= i < j < |t.effects| && t.effects[i].Respond? ==> !t.effects[j].Respond?
  {
    match (s, e)
    case (Idle, Request(contentType, body)) =>
      if contentType != Some(JsonContentType) then
        Transition(Returned, [Respond(StatusBadRequest, Text(BadContentTypeText))])
      else
        Transition(Connecting(body), [Connect])
    case (Connecting(_), ConnectFailed) =>
      Transition(Returned, [Respond(StatusInternalError, Text(InternalErrorText))])
    case (Connecting(body), Connected(queue, draws)) =>
      var cid := GenerateId(draws);
      Transition(Waiting(cid, queue, false),
                 [ArmTimer, Subscribe(queue), Publish(QueueName, body, cid, queue)])
    case (Waiting(cid, queue, got), Reply(replyId, content)) =>
      // The consume callback compares ids but never consults `gotResponse`.
      if replyId == cid then Transition(Waiting(cid, queue, true), [Respond(StatusOk, Json(content))])
      else Transition(s, [])
    case (Waiting(cid, queue, got), TimerFired) =>
      var answer := if got then [] else [Respond(StatusInternalError, Text(InternalErrorText))];
      Transition(Closed, answer + [CloseChannel, CloseConnection])
    case _ =>
      Transition(s, [])
  }

  /** The session after a sequence of events, with every effect in order. */
  function Run(s: Session, events: seq<Event>): (t: Transition)
    ensures s.Phase() <= t.next.Phase()
    decreases |events|
  {
    if events == [] then Transition(s, [])
    else
      var first := Step(s, events[0]);
      var rest := Run(first.next, events[1..]);
      Transition(rest.next, first.effects + rest.effects)
  }

  /** The number of HTTP responses among the effects. */
  function Responses(effects: seq<Effect>): (n: nat)
  {
    if effects == [] then 0
    else (if effects[0].Respond? then 1 else 0) + Responses(effects[1..])
  }

  /** The number of replies carrying `cid` before the first timer expiry. */
  function MatchesBeforeTimer(cid: string, events: seq<Event>): (n: nat)
  {
    if events == [] || events[0].TimerFired? then 0
    else (if events[0].Reply? && events[0].correlationId == cid then 1 else 0)
         + MatchesBeforeTimer(cid, events[1..])
  }

  /** The request passes the content-type check. */
  function JsonRequest(body: Message): (e: Event) {
    Request(Some(JsonContentType), body)
  }

  lemma {:induction false} ResponsesAppend(a: seq<Effect>, b: seq<Effect>)
    ensures Responses(a + b) == Responses(a) + Responses(b)
    decreases |a|
  {
    if a != [] {
      assert (a + b)[1..] == a[1..] + b;
      ResponsesAppend(a[1..], b);
    } else {
      assert a + b == b;
    }
  }

  lemma {:induction false} NoRespondNoResponses(effects: seq<Effect>)
    requires forall i :: 0 <= i < |effects| ==> !effects[i].Respond?
    ensures Responses(effects) == 0
    decreases |effects|
  {
    if effects != [] {
      NoRespondNoResponses(effects[1..]);
    }
  }

  /** A finished handler ignores everything: in particular a reply that
      arrives after the timer closed the channel is never answered. */
  lemma {:induction false} TerminalIsInert(s: Session, events: seq<Event>)
    requires s.Terminal()
    ensures Run(s, events) == Transition(s, [])
    decreases |events|
  {
    if events != [] {
      TerminalIsInert(s, events[1..]);
    }
  }

  /** A request whose `content-type` is not exactly `application/json` is
      answered 400 and nothing else ever happens: no connection is tried. */
  lemma InvalidContentTypeRejected(contentType: Option<string>, body: Message, later: seq<Event>)
    requires contentType != Some(JsonContentType)
    ensures Run(Idle, [Request(contentType, body)] + later)
            == Transition(Returned, [Respond(StatusBadRequest, Text(BadContentTypeText))])
    ensures Connect !in Run(Idle, [Request(contentType, body)] + later).effects
  {
    var events := [Request(contentType, body)] + later;
    assert events[1..] == later;
    TerminalIsInert(Returned, later);
  }

  /** A failed connection is answered 500 and the handler stops: no id is
      drawn, no timer armed, nothing subscribed or published. The connection
      a later broker step may already have opened is not closed. */
  lemma ConnectFailureAnswers500(body: Message, later: seq<Event>)
    ensures var t := Run(Idle, [JsonRequest(body), ConnectFailed] + later);
            && t.next == Returned
            && t.effects == [Connect, Respond(StatusInternalError, Text(InternalErrorText))]
            && forall i :: 0 <= i < |t.effects| ==>
                 !t.effects[i].Publish? && !t.effects[i].ArmTimer? && !t.effects[i].Subscribe?
  {
    var events := [JsonRequest(body), ConnectFailed] + later;
    assert events[1..][1..] == later;
    TerminalIsInert(Returned, later);
  }

  /** After connecting, the handler arms the timer, subscribes to the reply
      queue and then publishes, and does nothing else. The task goes to the
      shared queue carrying the caller's body, the drawn correlation id and
      the subscribed queue as `replyTo`. */
  lemma ConnectedSubscribesThenPublishes(body: Message, replyQueue: string, draws: Draws)
    ensures var t := Step(Connecting(body), Connected(replyQueue, draws));
            && t.next.Waiting? && !t.next.gotResponse && t.next.replyQueue == replyQueue
            && exists i, j :: 0 <= i < j < |t.effects|
                 && t.effects[i] == Subscribe(replyQueue)
                 && t.effects[j] == Publish(QueueName, body, t.next.correlationId, replyQueue)
    ensures var t := Step(Connecting(body), Connected(replyQueue, draws));
            && t.next.correlationId == GenerateId(draws)
            && t.effects == [ArmTimer, Subscribe(replyQueue), Publish(QueueName, body, GenerateId(draws), replyQueue)]
  {
    var t := Step(Connecting(body), Connected(replyQueue, draws));
    assert t.effects[1] == Subscribe(replyQueue);
    assert t.effects[2] == Publish(QueueName, body, t.next.correlationId, replyQueue);
  }

  /** Run over a concatenation of event sequences, one after the other. */
  lemma {:induction false} RunAppend(s: Session, a: seq<Event>, b: seq<Event>)
    ensures var first := Run(s, a);
            var rest := Run(first.next, b);
            Run(s, a + b) == Transition(rest.next, first.effects + rest.effects)
    decreases |a|
  {
    if a == [] {
      assert a + b == b;
    } else {
      assert (a + b)[0] == a[0];
      assert (a + b)[1..] == a[1..] + b;
      RunAppend(Step(s, a[0]).next, a[1..], b);
    }
  }

  /** A reply from some other call. */
  predicate Foreign(cid: string, e: Event) {
    e.Reply? && e.correlationId != cid
  }

  /** The events with every reply for another correlation id removed. */
  function WithoutForeign(cid: string, events: seq<Event>): (kept: seq<Event>)
    ensures |kept| <= |events|
    ensures forall i :: 0 <= i < |kept| ==> !Foreign(cid, kept[i])
  {
    if events == [] then []
    else if Foreign(cid, events[0]) then WithoutForeign(cid, events[1..])
    else [events[0]] + WithoutForeign(cid, events[1..])
  }

  /** Replies with another correlation id, wherever they arrive, make no
      difference at all: removing them from the events leaves the final
      session and every effect unchanged. */
  lemma {:induction false} ForeignRepliesIgnored(cid: string, queue: string, got: bool, events: seq<Event>)
    ensures Run(Waiting(cid, queue, got), events) == Run(Waiting(cid, queue, got), WithoutForeign(cid, events))
    decreases |events|
  {
    var s := Waiting(cid, queue, got);
    if events != [] {
      var e := events[0];
      var rest := events[1..];
      var kept := WithoutForeign(cid, rest);
      if Foreign(cid, e) {
        assert Step(s, e) == Transition(s, []);
        ForeignRepliesIgnored(cid, queue, got, rest);
      } else {
        assert WithoutForeign(cid, events) == [e] + kept;
        assert ([e] + kept)[1..] == kept;
        if e.TimerFired? {
          TerminalIsInert(Closed, rest);
          TerminalIsInert(Closed, kept);
        } else if e.Reply? {
          ForeignRepliesIgnored(cid, queue, true, rest);
        } else {
          ForeignRepliesIgnored(cid, queue, got, rest);
        }
      }
    }
  }

  /** A reply echoing the published task's correlation id, arriving at any
      point before the timer, is answered with status 200 and exactly the
      reply's content as JSON, and sets `gotResponse`. */
  lemma EchoedReplyIsForwarded(body: Message, replyQueue: string, draws: Draws, before: seq<Event>, content: Message)
    requires TimerFired !in before
    ensures var cid := GenerateId(draws);
            var t := Run(Idle, [JsonRequest(body), Connected(replyQueue, draws)] + before + [Reply(cid, content)]);
            && Publish(QueueName, body, cid, replyQueue) in t.effects
            && t.next == Waiting(cid, replyQueue, true)
            && |t.effects| > 0 && t.effects[|t.effects| - 1] == Respond(StatusOk, Json(content))
  {
    var cid := GenerateId(draws);
    var start: seq<Event> := [JsonRequest(body), Connected(replyQueue, draws)];
    var t0 := Run(Idle, start);
    assert start[1..][1..] == [];
    assert Run(Connecting(body), start[1..]) == Step(Connecting(body), Connected(replyQueue, draws));
    assert t0.next == Waiting(cid, replyQueue, false);
    assert t0.effects == [Connect, ArmTimer, Subscribe(replyQueue), Publish(QueueName, body, cid, replyQueue)];
    WaitingOutcome(cid, replyQueue, false, before);
    var t1 := Run(t0.next, before);
    var got := t1.next.gotResponse;
    var reply: seq<Event> := [Reply(cid, content)];
    assert reply[1..] == [];
    var last := Run(t1.next, reply);
    assert t1.next == Waiting(cid, replyQueue, got);
    assert Step(t1.next, reply[0]) == Transition(Waiting(cid, replyQueue, true), [Respond(StatusOk, Json(content))]);
    assert Run(Waiting(cid, replyQueue, true), reply[1..]) == Transition(Waiting(cid, replyQueue, true), []);
    assert last == Transition(Waiting(cid, replyQueue, true), [Respond(StatusOk, Json(content))]);
    RunAppend(Idle, start, before);
    RunAppend(Idle, start + before, reply);
    var t := Run(Idle, start + before + [Reply(cid, content)]);
    assert t.effects == (t0.effects + t1.effects) + last.effects;
    assert t.effects[3] == Publish(QueueName, body, cid, replyQueue);
  }

  /** On expiry the timer answers 500 exactly when no matching reply came,
      and closes channel and connection either way. */
  lemma TimerClosesAndAnswersOnlyWithoutReply(cid: string, queue: string, got: bool)
    ensures var t := Step(Waiting(cid, queue, got), TimerFired);
            && t.next == Closed
            && t.effects[|t.effects| - 2..] == [CloseChannel, CloseConnection]
            && (Respond(StatusInternalError, Text(InternalErrorText)) in t.effects <==> !got)
            && Responses(t.effects) == (if got then 0 else 1)
  {
    var t := Step(Waiting(cid, queue, got), TimerFired);
    if got {
      assert t.effects == [CloseChannel, CloseConnection];
    } else {
      assert t.effects == [Respond(StatusInternalError, Text(InternalErrorText)), CloseChannel, CloseConnection];
      var closes: seq<Effect> := [CloseChannel, CloseConnection];
      NoRespondNoResponses(closes);
      ResponsesAppend([Respond(StatusInternalError, Text(InternalErrorText))], closes);
    }
  }

  /** What a waiting session does with any later events: it answers once per
      matching reply that precedes the timer, plus a 500 when the timer fires
      with no matching reply seen, and `gotResponse` records whether a
      matching reply came. */
  lemma {:induction false} WaitingOutcome(cid: string, queue: string, got: bool, events: seq<Event>)
    ensures var t := Run(Waiting(cid, queue, got), events);
            var m := MatchesBeforeTimer(cid, events);
            && Responses(t.effects) == m + (if TimerFired in events && !got && m == 0 then 1 else 0)
            && t.next == (if TimerFired in events then Closed else Waiting(cid, queue, got || m > 0))
    decreases |events|
  {
    if events != [] {
      var s := Waiting(cid, queue, got);
      var first := Step(s, events[0]);
      var rest := events[1..];
      assert events == [events[0]] + rest;
      ResponsesAppend(first.effects, Run(first.next, rest).effects);
      match events[0]
      case TimerFired =>
        TimerClosesAndAnswersOnlyWithoutReply(cid, queue, got);
        TerminalIsInert(Closed, rest);
      case Reply(c, content) =>
        WaitingOutcome(cid, queue, got || c == cid, rest);
      case _ =>
        WaitingOutcome(cid, queue, got, rest);
    }
  }

  /** A whole call: the caller gets one response per matching reply before
      the timer, or a single 500 from the timer when there was none. */
  lemma CallResponses(body: Message, replyQueue: string, draws: Draws, later: seq<Event>)
    ensures var m := MatchesBeforeTimer(GenerateId(draws), later);
            Responses(Run(Idle, [JsonRequest(body), Connected(replyQueue, draws)] + later).effects)
            == m + (if TimerFired in later && m == 0 then 1 else 0)
  {
    var events := [JsonRequest(body), Connected(replyQueue, draws)] + later;
    assert events[1..][1..] == later;
    var cid := GenerateId(draws);
    WaitingOutcome(cid, replyQueue, false, later);
    var t1 := Step(Idle, events[0]);
    var t2 := Step(t1.next, events[1]);
    var tail := Run(t2.next, later);
    assert t2.next == Waiting(cid, replyQueue, false);
    NoRespondNoResponses(t1.effects);
    NoRespondNoResponses(t2.effects);
    assert Run(t1.next, events[1..]).effects == t2.effects + tail.effects;
    assert Run(Idle, events).effects == t1.effects + (t2.effects + tail.effects);
    ResponsesAppend(t2.effects, tail.effects);
    ResponsesAppend(t1.effects, t2.effects + tail.effects);
  }

  /** When the timer fires and at most one matching reply precedes it, the
      caller gets exactly one response. */
  lemma ExactlyOneResponse(body: Message, replyQueue: string, draws: Draws, later: seq<Event>)
    requires TimerFired in later
    requires MatchesBeforeTimer(GenerateId(draws), later) <= 1
    ensures Responses(Run(Idle, [JsonRequest(body), Connected(replyQueue, draws)] + later).effects) == 1
  {
    CallResponses(body, replyQueue, draws, later);
  }

  /** Without a `gotResponse` check in the consume callback, a duplicated
      reply before the timer is answered twice. */
  lemma DuplicateReplyAnsweredTwice(body: Message, replyQueue: string, draws: Draws, content: Message)
    ensures var cid := GenerateId(draws);
            Responses(Run(Idle, [JsonRequest(body), Connected(replyQueue, draws),
                                 Reply(cid, content), Reply(cid, content), TimerFired]).effects) == 2
  {
    var cid := GenerateId(draws);
    var later := [Reply(cid, content), Reply(cid, content), TimerFired];
    assert MatchesBeforeTimer(cid, later) == 2 by {
      var last := [TimerFired];
      assert MatchesBeforeTimer(cid, last) == 0;
      assert [Reply(cid, content), TimerFired][1..] == last;
      assert MatchesBeforeTimer(cid, [Reply(cid, content), TimerFired]) == 1;
      assert later[1..] == [Reply(cid, content), TimerFired];
    }
    CallResponses(body, replyQueue, draws, later);
    assert [JsonRequest(body), Connected(replyQueue, draws)] + later
        == [JsonRequest(body), Connected(replyQueue, draws), Reply(cid, content), Reply(cid, content), TimerFired];
  }

}
