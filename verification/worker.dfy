/** The worker's `main` and its `consume` callback as a state machine.

    `main` connects, creates a channel and asserts the task queue; on any
    failure it logs and returns. Otherwise it sets `prefetch(1)` and consumes:
    each delivered task is decoded, stamped with the process-wide counter
    `lastId` (which is then incremented) and, 2 seconds later, sent back to
    the task's `replyTo` under the task's correlation id and acknowledged.
    With a prefetch window of one, the broker hands over the next queued task
    only after the previous one is acknowledged; the broker-side queue is
    therefore part of the state here. */
module Worker {

  import opened Wrappers
  import opened Messages

  /** A delivered task: its decoded content and its `correlationId` and
      `replyTo` properties. */
  datatype Task = Task(content: Message, correlationId: string, replyTo: string)

  /** The unacknowledged task and the reply the pending timer will send. */
  datatype InFlight = InFlight(task: Task, reply: Message)

  datatype Event =
      /** `connect`, `createChannel` and `assertQueue` all succeeded. */
    | Connected
      /** One of them threw. */
    | ConnectFailed
      /** A task is published to the shared queue. */
    | Arrive(task: Task)
      /** The 2-second timer of the unacknowledged task expires. */
    | Finish

  datatype Effect =
      /** The consume callback ran for `task` and stamped it with `id`. */
    | Received(task: Task, id: nat)
      /** `channel.sendToQueue(queue, content, { correlationId })`. */
    | SendReply(queue: string, content: Message, correlationId: string)
      /** `channel.ack(data)`. */
    | Ack(task: Task)

  datatype WorkerState =
      /** `main` is awaiting the broker; tasks already wait in the queue. */
    | Starting(queued: seq<Task>)
      /** `main` returned after a failed connection; nothing is consumed,
          and the tasks published to the queue stay with the broker. */
    | Stopped(queued: seq<Task>)
      /** Consuming with counter `lastId`, tasks the broker holds back, and at
          most one unacknowledged task. */
    | Consuming(lastId: nat, backlog: seq<Task>, unacked: Option<InFlight>)

  datatype Transition = Transition(next: WorkerState, effects: seq<Effect>)

  /** The worker before `main` has connected, with an empty queue. */
  const Init: WorkerState := Starting([])

  /** `parsed.id = lastId`: the decoded task with its `id` overwritten. */
  function Stamp(m: Message, id: nat): (stamped: Message)
    ensures stamped.text == m.text && stamped.id == Some(id)
  {
    m.(id := Some(id))
  }

  /** The broker delivers the head of the queue when nothing is
      unacknowledged; the callback stamps it and increments the counter. */
  function Admit(lastId: nat, queue: seq<Task>): (t: Transition)
    ensures t.next.Consuming? && Pending(t.next) == queue
    ensures t.next.unacked.None? <==> queue == []
  {
    if queue == [] then Transition(Consuming(lastId, [], None), [])
    else
      var task := queue[0];
      Transition(Consuming(lastId + 1, queue[1..], Some(InFlight(task, Stamp(task.content, lastId)))),
                 [Received(task, lastId)])
  }

  function Step(w: WorkerState, e: Event): (t: Transition)
    ensures w.Stopped? ==> t.next.Stopped? && t.effects == []
    ensures LastId(w) <= LastId(t.next) <= LastId(w) + 1
  {
    match (w, e)
    case (Starting(queued), Connected) => Admit(0, queued)
    case (Starting(queued), ConnectFailed) => Transition(Stopped(queued), [])
    case (Starting(queued), Arrive(task)) => Transition(Starting(queued + [task]), [])
    case (Stopped(queued), Arrive(task)) => Transition(Stopped(queued + [task]), [])
    case (Consuming(lastId, backlog, None), Arrive(task)) => Admit(lastId, backlog + [task])
    case (Consuming(lastId, backlog, Some(f)), Arrive(task)) =>
      Transition(Consuming(lastId, backlog + [task], Some(f)), [])
    case (Consuming(lastId, backlog, Some(f)), Finish) =>
      var after := Admit(lastId, backlog);
      Transition(after.next, [SendReply(f.task.replyTo, f.reply, f.task.correlationId), Ack(f.task)] + after.effects)
    case _ => Transition(w, [])
  }

  function Run(w: WorkerState, events: seq<Event>): (t: Transition)
    ensures LastId(w) <= LastId(t.next) <= LastId(w) + |events|
    decreases |events|
  {
    if events == [] then Transition(w, [])
    else
      var first := Step(w, events[0]);
      var rest := Run(first.next, events[1..]);
      Transition(rest.next, first.effects + rest.effects)
  }

  /** The elements `pick` selects, in order. */
  function Collect<A, T>(xs: seq<A>, pick: A -> Option<T>): (picked: seq<T>)
  {
    if xs == [] then []
    else (match pick(xs[0]) case Some(y) => [y] case None => []) + Collect(xs[1..], pick)
  }

  lemma {:induction false} CollectAppend<A, T>(xs: seq<A>, ys: seq<A>, pick: A -> Option<T>)
    ensures Collect(xs + ys, pick) == Collect(xs, pick) + Collect(ys, pick)
    decreases |xs|
  {
    if xs == [] {
      assert xs + ys == ys;
    } else {
      assert (xs + ys)[1..] == xs[1..] + ys;
      CollectAppend(xs[1..], ys, pick);
    }
  }

  lemma CollectOne<A, T>(x: A, pick: A -> Option<T>)
    ensures Collect([x], pick) == if pick(x).Some? then [pick(x).value] else []
  {
    assert [x][1..] == [];
  }

  function PickArrival(e: Event): (picked: Option<Task>) {
    if e.Arrive? then Some(e.task) else None
  }

  function PickDelivered(e: Effect): (picked: Option<Task>) {
    if e.Received? then Some(e.task) else None
  }

  function PickId(e: Effect): (picked: Option<nat>) {
    if e.Received? then Some(e.id) else None
  }

  function PickStamped(e: Effect): (picked: Option<Message>) {
    if e.Received? then Some(Stamp(e.task.content, e.id)) else None
  }

  function PickAcked(e: Effect): (picked: Option<Task>) {
    if e.Ack? then Some(e.task) else None
  }

  function PickSent(e: Effect): (picked: Option<Message>) {
    if e.SendReply? then Some(e.content) else None
  }

  /** Tasks published to the queue. */
  function Arrivals(events: seq<Event>): (tasks: seq<Task>) { Collect(events, PickArrival) }
  /** Tasks handed to the consume callback, in delivery order. */
  function Delivered(effects: seq<Effect>): (tasks: seq<Task>) { Collect(effects, PickDelivered) }
  /** The ids the callback stamped, in delivery order. */
  function Ids(effects: seq<Effect>): (ids: seq<nat>) { Collect(effects, PickId) }
  /** Each delivered task's content after stamping. */
  function Stamped(effects: seq<Effect>): (messages: seq<Message>) { Collect(effects, PickStamped) }
  function Acked(effects: seq<Effect>): (tasks: seq<Task>) { Collect(effects, PickAcked) }
  /** The messages sent back, in order. */
  function Sent(effects: seq<Effect>): (messages: seq<Message>) { Collect(effects, PickSent) }

  function LastId(w: WorkerState): (id: nat) {
    if w.Consuming? then w.lastId else 0
  }

  /** The delivered but unacknowledged task, if any: at most one. */
  function OutstandingTasks(w: WorkerState): (outstanding: seq<Task>) {
    if w.Consuming? && w.unacked.Some? then [w.unacked.value.task] else []
  }

  function OutstandingReplies(w: WorkerState): (outstanding: seq<Message>) {
    if w.Consuming? && w.unacked.Some? then [w.unacked.value.reply] else []
  }

  /** Every task not yet acknowledged, in queue order: the unacknowledged one
      first, then those the broker still holds. */
  function Pending(w: WorkerState): (pending: seq<Task>) {
    match w
    case Starting(queued) => queued
    case Stopped(queued) => queued
    case Consuming(_, backlog, _) => OutstandingTasks(w) + backlog
  }

  /** The integers `lo`, `lo + 1`, …, `hi - 1`. */
  function Range(lo: nat, hi: nat): (r: seq<nat>)
    requires lo <= hi
    ensures |r| == hi - lo && forall i :: 0 <= i < |r| ==> r[i] == lo + i
  {
    seq(hi - lo, i requires 0 <= i < hi - lo => lo + i)
  }

  /** Every acknowledgment directly follows the reply for that task, sent to
      its `replyTo` under its correlation id. */
  predicate ReplyPrecedesAck(effects: seq<Effect>) {
    forall j :: 0 <= j < |effects| && effects[j].Ack? ==>
      && 0 < j
      && effects[j - 1].SendReply?
      && effects[j - 1].queue == effects[j].task.replyTo
      && effects[j - 1].correlationId == effects[j].task.correlationId
  }

  lemma ReplyPrecedesAckAppend(a: seq<Effect>, b: seq<Effect>)
    requires ReplyPrecedesAck(a) && ReplyPrecedesAck(b)
    ensures ReplyPrecedesAck(a + b)
  {
    var ab := a + b;
    forall j | 0 <= j < |ab| && ab[j].Ack?
      ensures 0 < j && ab[j - 1].SendReply?
      ensures ab[j - 1].queue == ab[j].task.replyTo && ab[j - 1].correlationId == ab[j].task.correlationId
    {
      if j >= |a| {
        assert ab[j] == b[j - |a|];
        assert b[j - |a|].Ack?;
        assert ab[j - 1] == b[j - |a| - 1];
      } else {
        assert ab[j] == a[j];
        assert ab[j - 1] == a[j - 1];
      }
    }
  }

  /** The stamped message keeps every field of the task but `id`, and
      carries the counter value. */
  lemma StampKeepsText(m: Message, id: nat)
    ensures Stamp(m, id) == m <==> m.id == Some(id)
  {
  }

  /** A stopped worker never consumes: it has no effect, and every task
      published meanwhile stays queued at the broker, in order. */
  lemma {:induction false} StoppedIsInert(queued: seq<Task>, events: seq<Event>)
    ensures Run(Stopped(queued), events) == Transition(Stopped(queued + Arrivals(events)), [])
    decreases |events|
  {
    if events == [] {
      assert queued + [] == queued;
    } else {
      var e := events[0];
      var rest := events[1..];
      var q := queued + Arrivals([e]);
      StoppedStep(queued, e);
      StoppedIsInert(q, rest);
      assert events == [e] + rest;
      CollectAppend([e], rest, PickArrival);
      assert q + Arrivals(rest) == queued + Arrivals(events);
    }
  }

  /** One event for a stopped worker: an arrival joins the queue. */
  lemma StoppedStep(queued: seq<Task>, e: Event)
    ensures Step(Stopped(queued), e) == Transition(Stopped(queued + Arrivals([e])), [])
  {
    CollectOne(e, PickArrival);
    if !e.Arrive? {
      assert queued + [] == queued;
    }
  }

  /** If connecting fails, `main` returns without consuming: no task is
      ever received, replied to or acknowledged. */
  lemma ConnectFailureNeverConsumes(queued: seq<Task>, later: seq<Event>)
    ensures Run(Starting(queued), [ConnectFailed] + later) == Transition(Stopped(queued + Arrivals(later)), [])
  {
    assert ([ConnectFailed] + later)[1..] == later;
    StoppedIsInert(queued, later);
  }

  /** Finishing the unacknowledged task sends its stamped reply to its
      `replyTo` with its correlation id, then acknowledges it, and only then
      lets the broker deliver the next queued task. */
  lemma FinishRepliesThenAcks(lastId: nat, backlog: seq<Task>, f: InFlight)
    ensures var t := Step(Consuming(lastId, backlog, Some(f)), Finish);
            && 2 <= |t.effects|
            && t.effects[0] == SendReply(f.task.replyTo, f.reply, f.task.correlationId)
            && t.effects[1] == Ack(f.task)
            && (backlog == [] <==> t.next.Consuming? && t.next.unacked.None?)
            && Delivered(t.effects) == (if backlog == [] then [] else [backlog[0]])
  {
    var t := Step(Consuming(lastId, backlog, Some(f)), Finish);
    var after := Admit(lastId, backlog);
    var head := [SendReply(f.task.replyTo, f.reply, f.task.correlationId), Ack(f.task)];
    CollectAppend(head, after.effects, PickDelivered);
    assert head[1..][1..] == [];
    assert Delivered(head) == [];
    if backlog != [] {
      assert after.effects[1..] == [];
    }
  }

  /** The queue bookkeeping from `w` to `t.next`, where `arrivals` were
      published meanwhile and `t.effects` happened:
      - the queue is acknowledged first-in first-out: what was pending plus
        what arrived is what was acknowledged plus what is still pending;
      - acknowledgments follow delivery order;
      - the replies sent are the stamped deliveries, in the same order. */
  predicate QueueLaws(w: WorkerState, arrivals: seq<Task>, t: Transition) {
    && Pending(w) + arrivals == Acked(t.effects) + Pending(t.next)
    && OutstandingTasks(w) + Delivered(t.effects) == Acked(t.effects) + OutstandingTasks(t.next)
    && OutstandingReplies(w) + Stamped(t.effects) == Sent(t.effects) + OutstandingReplies(t.next)
  }

  /** The counter only grows and the stamped ids are exactly the consecutive
      values it passed through; each acknowledgment directly follows its
      task's reply. */
  predicate CounterLaws(w: WorkerState, t: Transition) {
    && LastId(w) <= LastId(t.next)
    && Ids(t.effects) == Range(LastId(w), LastId(t.next))
    && ReplyPrecedesAck(t.effects)
  }

  predicate Laws(w: WorkerState, arrivals: seq<Task>, t: Transition) {
    QueueLaws(w, arrivals, t) && CounterLaws(w, t)
  }

  /** `x + a1 + a2 == y1 + y2 + z2` when `x + a1 == y1 + z1` and `z1 + a2 == y2 + z2`. */
  lemma ChainEquations<T>(x: seq<T>, a1: seq<T>, a2: seq<T>, y1: seq<T>, z1: seq<T>, y2: seq<T>, z2: seq<T>)
    requires x + a1 == y1 + z1 && z1 + a2 == y2 + z2
    ensures x + (a1 + a2) == (y1 + y2) + z2
  {
    calc {
      x + (a1 + a2);
      (x + a1) + a2;
      (y1 + z1) + a2;
      y1 + (z1 + a2);
      y1 + (y2 + z2);
    }
  }

  lemma QueueLawsCompose(w: WorkerState, a1: seq<Task>, t1: Transition, a2: seq<Task>, t2: Transition)
    requires QueueLaws(w, a1, t1) && QueueLaws(t1.next, a2, t2)
    ensures QueueLaws(w, a1 + a2, Transition(t2.next, t1.effects + t2.effects))
  {
    var e1, e2 := t1.effects, t2.effects;
    CollectAppend(e1, e2, PickAcked);
    CollectAppend(e1, e2, PickDelivered);
    CollectAppend(e1, e2, PickStamped);
    CollectAppend(e1, e2, PickSent);
    ChainEquations(Pending(w), a1, a2, Acked(e1), Pending(t1.next), Acked(e2), Pending(t2.next));
    ChainEquations(OutstandingTasks(w), Delivered(e1), Delivered(e2), Acked(e1), OutstandingTasks(t1.next),
                   Acked(e2), OutstandingTasks(t2.next));
    ChainEquations(OutstandingReplies(w), Stamped(e1), Stamped(e2), Sent(e1), OutstandingReplies(t1.next),
                   Sent(e2), OutstandingReplies(t2.next));
  }

  lemma CounterLawsCompose(w: WorkerState, t1: Transition, t2: Transition)
    requires CounterLaws(w, t1) && CounterLaws(t1.next, t2)
    ensures CounterLaws(w, Transition(t2.next, t1.effects + t2.effects))
  {
    CollectAppend(t1.effects, t2.effects, PickId);
    ReplyPrecedesAckAppend(t1.effects, t2.effects);
    assert Range(LastId(w), LastId(t1.next)) + Range(LastId(t1.next), LastId(t2.next))
        == Range(LastId(w), LastId(t2.next));
  }

  /** The broker delivers the head of the queue to the callback, if any. */
  lemma AdmitLaws(lastId: nat, queue: seq<Task>)
    ensures var t := Admit(lastId, queue);
            && Laws(Consuming(lastId, queue, None), [], t)
            && Delivered(t.effects) == (if queue == [] then [] else [queue[0]])
  {
    var t := Admit(lastId, queue);
    if queue == [] {
      assert Range(lastId, lastId) == [];
    } else {
      assert queue == [queue[0]] + queue[1..];
      var r := Received(queue[0], lastId);
      assert t.effects == [r];
      CollectOne(r, PickAcked);
      CollectOne(r, PickDelivered);
      CollectOne(r, PickStamped);
      CollectOne(r, PickSent);
      CollectOne(r, PickId);
    }
  }

  /** A step without effects that only moves arrivals into the queue. */
  lemma QuietLaws(w: WorkerState, arrivals: seq<Task>, next: WorkerState)
    requires Pending(w) + arrivals == Pending(next)
    requires OutstandingTasks(w) == OutstandingTasks(next) && OutstandingReplies(w) == OutstandingReplies(next)
    requires LastId(w) == LastId(next)
    ensures Laws(w, arrivals, Transition(next, []))
  {
    assert Range(LastId(w), LastId(w)) == [];
  }

  /** Replying to and acknowledging the unacknowledged task. */
  lemma ReplyAckLaws(lastId: nat, backlog: seq<Task>, f: InFlight)
    ensures var head := [SendReply(f.task.replyTo, f.reply, f.task.correlationId), Ack(f.task)];
            Laws(Consuming(lastId, backlog, Some(f)), [], Transition(Consuming(lastId, backlog, None), head))
  {
    var reply, ack := SendReply(f.task.replyTo, f.reply, f.task.correlationId), Ack(f.task);
    var head := [reply, ack];
    assert head == [reply] + [ack];
    assert Acked(head) == [f.task] by {
      CollectAppend([reply], [ack], PickAcked);
      CollectOne(reply, PickAcked);
      CollectOne(ack, PickAcked);
    }
    assert Sent(head) == [f.reply] by {
      CollectAppend([reply], [ack], PickSent);
      CollectOne(reply, PickSent);
      CollectOne(ack, PickSent);
    }
    assert Delivered(head) == [] by {
      CollectAppend([reply], [ack], PickDelivered);
      CollectOne(reply, PickDelivered);
      CollectOne(ack, PickDelivered);
    }
    assert Stamped(head) == [] by {
      CollectAppend([reply], [ack], PickStamped);
      CollectOne(reply, PickStamped);
      CollectOne(ack, PickStamped);
    }
    assert Ids(head) == [] by {
      CollectAppend([reply], [ack], PickId);
      CollectOne(reply, PickId);
      CollectOne(ack, PickId);
    }
    assert Range(lastId, lastId) == [];
  }

  /** Finishing the unacknowledged task: reply, acknowledge, admit the next. */
  lemma FinishLaws(lastId: nat, backlog: seq<Task>, f: InFlight)
    ensures Laws(Consuming(lastId, backlog, Some(f)), [], Step(Consuming(lastId, backlog, Some(f)), Finish))
  {
    var w := Consuming(lastId, backlog, Some(f));
    var head := [SendReply(f.task.replyTo, f.reply, f.task.correlationId), Ack(f.task)];
    var t1 := Transition(Consuming(lastId, backlog, None), head);
    var t2 := Admit(lastId, backlog);
    ReplyAckLaws(lastId, backlog, f);
    AdmitLaws(lastId, backlog);
    QueueLawsCompose(w, [], t1, [], t2);
    CounterLawsCompose(w, t1, t2);
    assert Step(w, Finish) == Transition(t2.next, head + t2.effects);
  }

  /** `prefetch(1)`: while a task is unacknowledged no other task reaches
      the callback, except right after that task's reply and acknowledgment. */
  lemma DeliveryWaitsForAck(w: WorkerState, e: Event)
    requires w.Consuming? && w.unacked.Some?
    ensures var t := Step(w, e);
            forall i :: 0 <= i < |t.effects| && t.effects[i].Received? ==>
              e.Finish? && 2 <= i && t.effects[i - 1] == Ack(w.unacked.value.task)
  {
  }

  /** One step keeps the laws. */
  lemma StepLaws(w: WorkerState, e: Event)
    ensures Laws(w, Arrivals([e]), Step(w, e))
  {
    CollectOne(e, PickArrival);
    var t := Step(w, e);
    if w.Consuming? && w.unacked.Some? && e.Finish? {
      FinishLaws(w.lastId, w.backlog, w.unacked.value);
    } else if w.Consuming? && w.unacked.None? && e.Arrive? {
      AdmitLaws(w.lastId, w.backlog + [e.task]);
    } else if w.Starting? && e.Connected? {
      AdmitLaws(0, w.queued);
    } else if w.Consuming? && e.Arrive? {
      assert OutstandingTasks(w) + w.backlog + [e.task] == OutstandingTasks(w) + (w.backlog + [e.task]);
      QuietLaws(w, [e.task], t.next);
    } else if e.Arrive? {
      QuietLaws(w, [e.task], t.next);
    } else if w.Starting? && e.ConnectFailed? {
      QuietLaws(w, [], t.next);
    } else {
      assert t == Transition(w, []);
      QuietLaws(w, [], w);
    }
  }

  /** The laws hold over every run, including one whose connection failed. */
  lemma {:induction false} Conservation(w: WorkerState, events: seq<Event>)
    ensures Laws(w, Arrivals(events), Run(w, events))
    decreases |events|
  {
    if events == [] {
      assert Range(LastId(w), LastId(w)) == [];
    } else {
      var first := Step(w, events[0]);
      var rest := events[1..];
      StepLaws(w, events[0]);
      Conservation(first.next, rest);
      assert events == [events[0]] + rest;
      CollectAppend([events[0]], rest, PickArrival);
      QueueLawsCompose(w, Arrivals([events[0]]), first, Arrivals(rest), Run(first.next, rest));
      CounterLawsCompose(w, first, Run(first.next, rest));
    }
  }

  /** From a fresh process: ids 0, 1, 2, … in delivery order; tasks are
      acknowledged in the order they were published and delivered, and at
      most one delivered task is unacknowledged; the replies are the stamped
      tasks in delivery order. */
  /** The other half of `prefetch(1)`: the broker holds tasks back only
      while one is unacknowledged. */
  predicate NoIdleBacklog(w: WorkerState) {
    w.Consuming? && w.unacked.None? ==> w.backlog == []
  }

  /** Whatever happens, a worker never sits idle while tasks wait. */
  lemma {:induction false} NoIdleBacklogKept(w: WorkerState, events: seq<Event>)
    requires NoIdleBacklog(w)
    ensures NoIdleBacklog(Run(w, events).next)
    decreases |events|
  {
    if events != [] {
      NoIdleBacklogKept(Step(w, events[0]).next, events[1..]);
    }
  }

  lemma FreshWorker(events: seq<Event>)
    ensures var t := Run(Init, events);
            && Ids(t.effects) == Range(0, |Delivered(t.effects)|)
            && Arrivals(events) == Acked(t.effects) + Pending(t.next)
            && Delivered(t.effects) == Acked(t.effects) + OutstandingTasks(t.next)
            && |Delivered(t.effects)| <= |Acked(t.effects)| + 1
            && Stamped(t.effects) == Sent(t.effects) + OutstandingReplies(t.next)
            && ReplyPrecedesAck(t.effects)
            && NoIdleBacklog(t.next)
  {
    Conservation(Init, events);
    NoIdleBacklogKept(Init, events);
    var t := Run(Init, events);
    IdsMatchDeliveries(t.effects);
  }

  /** What a fresh worker sends back: the k-th reply is the k-th delivered
      task's message with only its `id` replaced, by the counter value k. */
  lemma SentAreStampedTasks(events: seq<Event>, k: nat)
    requires k < |Sent(Run(Init, events).effects)|
    ensures var t := Run(Init, events);
            && k < |Delivered(t.effects)|
            && Sent(t.effects)[k] == Delivered(t.effects)[k].content.(id := Some(k))
  {
    var t := Run(Init, events);
    FreshWorker(events);
    StampedAreTasksWithIds(t.effects);
    assert Stamped(t.effects)[k] == Sent(t.effects)[k];
  }

  lemma {:induction false} IdsMatchDeliveries(effects: seq<Effect>)
    ensures |Ids(effects)| == |Delivered(effects)|
    decreases |effects|
  {
    if effects != [] {
      IdsMatchDeliveries(effects[1..]);
    }
  }

  /** Each stamped message equals the delivered task except for `id`. */
  lemma {:induction false} StampedAreTasksWithIds(effects: seq<Effect>)
    ensures |Stamped(effects)| == |Delivered(effects)| == |Ids(effects)|
    ensures forall i :: 0 <= i < |Stamped(effects)| ==>
              Stamped(effects)[i] == Delivered(effects)[i].content.(id := Some(Ids(effects)[i]))
    decreases |effects|
  {
    if effects != [] {
      StampedAreTasksWithIds(effects[1..]);
    }
  }

}
