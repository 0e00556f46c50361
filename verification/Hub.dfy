/** The WebSocket hub: one goroutine that registers, unregisters and broadcasts, and one writer
    and one reader per client, communicating through bounded channels. Broadcasting visits the
    clients one by one, and writers and readers may run between two visits. */
module WebSocketHub {
  import opened Wrappers

  type Message = string
  type ClientId = nat

  const CAPACITY := 256

  /** What travels through a channel: a broadcast, or the reader's answer to a ping. */
  datatype Item = Cast(message: Message) | PongReply

  /** The broadcasts among some items, in order. */
  function Casts(items: seq<Item>): seq<Message> {
    if items == [] then []
    else
      var last := items[|items| - 1];
      Casts(items[..|items| - 1]) + (if last.Cast? then [last.message] else [])
  }

  lemma CastsSnoc(items: seq<Item>, item: Item)
    ensures Casts(items + [item]) == Casts(items) + (if item.Cast? then [item.message] else [])
  {
    assert (items + [item])[..|items|] == items;
  }

  lemma {:induction false} CastsAppend(a: seq<Item>, b: seq<Item>)
    ensures Casts(a + b) == Casts(a) + Casts(b)
  {
    if b == [] {
      assert a + b == a;
    } else {
      CastsAppend(a, b[..|b| - 1]);
      assert (a + b)[..|a + b| - 1] == a + b[..|b| - 1];
    }
  }

  lemma {:induction false} CastsShorter(items: seq<Item>)
    ensures |Casts(items)| <= |items|
  {
    if items != [] {
      CastsShorter(items[..|items| - 1]);
    }
  }

  /** Where a client's writer is: waiting, with a message just opened, draining what it measured
      into that message, or gone. */
  datatype Pump = Waiting | Opened | Draining(left: nat) | Stopped

  /** Where its reader is: reading, blocked in the send of a ping's answer, or gone. */
  datatype Reader = Reading | Blocked | Gone

  /** A client's channel and what became of its items. The writer collects a batch into one socket
      message; it is `written` when that message is flushed, and `lost` when the flush or the
      opening fails. `since` is the length of the broadcast log when the client registered;
      `enqueued` is the history of its channel. */
  datatype Client = Client(
    queue: seq<Item>,
    closed: bool,
    closes: nat,
    pump: Pump,
    reader: Reader,
    written: seq<Item>,
    batch: seq<Item>,
    lost: seq<Item>,
    enqueued: seq<Item>,
    since: nat)

  function NewClient(since: nat): Client {
    Client([], false, 0, Waiting, Reading, [], [], [], [], since)
  }

  /** A broadcast in progress: the message, and the clients not visited yet. */
  datatype Delivery = Delivery(message: Message, todo: set<ClientId>)

  /** `panicked` records that the hub sent on, or closed, a closed channel; `crashed` that a reader
      sent on one, or was blocked in a send when it was closed. Each would end the process. */
  datatype State = State(
    registered: set<ClientId>,
    clients: map<ClientId, Client>,
    delivery: Option<Delivery>,
    log: seq<Message>,
    panicked: bool,
    crashed: bool)

  datatype Event =
    | Register(c: ClientId)
    | Unregister(c: ClientId)
    | BeginBroadcast(message: Message)
    | Visit(c: ClientId)
    | EndBroadcast
    // the writer of a client
    | Receive(c: ClientId, canWrite: bool)
    | Measure(c: ClientId)
    | DrainOne(c: ClientId)
    | Flush(c: ClientId, ok: bool)
    | PingFails(c: ClientId)
    // the reader of a client answers a ping, at once or once there is room
    | Pong(c: ClientId)
    | Unblock(c: ClientId)

  function CloseChannel(s: State, c: ClientId): State
    requires c in s.clients
  {
    var k := s.clients[c];
    if k.closed then s.(panicked := true)
    else
      s.(clients := s.clients[c := k.(closed := true, closes := k.closes + 1)],
          crashed := s.crashed || k.reader == Blocked)
  }

  /** The non-blocking send: enqueue if there is room, otherwise close and forget the client. */
  function SendOrEvict(s: State, c: ClientId, message: Message): State
    requires c in s.clients
  {
    var k := s.clients[c];
    if |k.queue| < CAPACITY then
      if k.closed then s.(panicked := true)
      else s.(clients := s.clients[c := Enqueued(k, Cast(message))])
    else CloseChannel(s, c).(registered := s.registered - {c})
  }

  function Enqueued(k: Client, item: Item): Client {
    k.(queue := k.queue + [item], enqueued := k.enqueued + [item])
  }

  // ---------- The steps of one client's goroutines ----------

  function Received(k: Client, canWrite: bool): Client {
    if k.pump != Waiting then k
    else if k.queue == [] then (if k.closed then k.(pump := Stopped) else k)
    else if !canWrite then k.(queue := k.queue[1..], lost := [k.queue[0]], pump := Stopped)
    else k.(queue := k.queue[1..], batch := [k.queue[0]], pump := Opened)
  }

  function Drained(k: Client): Client {
    if !k.pump.Draining? || k.pump.left == 0 || k.queue == [] then k
    else k.(queue := k.queue[1..], batch := k.batch + [k.queue[0]], pump := Draining(k.pump.left - 1))
  }

  function Flushed(k: Client, ok: bool): Client {
    if k.pump != Draining(0) then k
    else if ok then k.(written := k.written + k.batch, batch := [], pump := Waiting)
    else k.(lost := k.batch, batch := [], pump := Stopped)
  }

  /** What the writer does to its client. */
  function WriterStep(k: Client, ev: Event): Client {
    match ev
    case Receive(_, canWrite) => Received(k, canWrite)
    case Measure(_) => if k.pump == Opened then k.(pump := Draining(|k.queue|)) else k
    case DrainOne(_) => Drained(k)
    case Flush(_, ok) => Flushed(k, ok)
    case PingFails(_) => if k.pump == Waiting then k.(pump := Stopped) else k
    case _ => k
  }

  predicate IsWriterEvent(ev: Event) {
    ev.Receive? || ev.Measure? || ev.DrainOne? || ev.Flush? || ev.PingFails?
  }

  /** One step; an event that does not apply changes nothing. A client registers once. */
  function Next(s: State, ev: Event): State {
    match ev
    case Register(c) =>
      if s.delivery.Some? || c in s.clients then s
      else s.(registered := s.registered + {c}, clients := s.clients[c := NewClient(|s.log|)])
    case Unregister(c) =>
      // sent by the reader when it ends, so at most once and never while it is blocked
      if s.delivery.Some? || c !in s.clients || s.clients[c].reader != Reading then s
      else
        var ended := s.(clients := s.clients[c := s.clients[c].(reader := Gone)]);
        if c !in s.registered then ended else CloseChannel(ended, c).(registered := s.registered - {c})
    case BeginBroadcast(message) =>
      if s.delivery.Some? then s
      else s.(delivery := Some(Delivery(message, s.registered)), log := s.log + [message])
    case Visit(c) =>
      if s.delivery.None? || c !in s.delivery.value.todo || c !in s.clients then s
      else
        var d := s.delivery.value;
        SendOrEvict(s.(delivery := Some(d.(todo := d.todo - {c}))), c, d.message)
    case EndBroadcast =>
      if s.delivery.Some? && s.delivery.value.todo == {} then s.(delivery := None) else s
    case Pong(c) =>
      if c !in s.clients || s.clients[c].reader != Reading then s
      else
        var k := s.clients[c];
        if k.closed then s.(crashed := true)
        else if |k.queue| >= CAPACITY then s.(clients := s.clients[c := k.(reader := Blocked)])
        else s.(clients := s.clients[c := Enqueued(k, PongReply)])
    case Unblock(c) =>
      if c !in s.clients || s.clients[c].reader != Blocked || s.clients[c].closed || |s.clients[c].queue| >= CAPACITY
      then s
      else s.(clients := s.clients[c := Enqueued(s.clients[c], PongReply).(reader := Reading)])
    case _ =>
      if ev.c !in s.clients then s else s.(clients := s.clients[ev.c := WriterStep(s.clients[ev.c], ev)])
  }

  function Exec(s: State, evs: seq<Event>): State
    decreases |evs|
  {
    if evs == [] then s else Exec(Next(s, evs[0]), evs[1..])
  }

  ghost predicate IsStart(s: State) {
    s == State({}, map[], None, [], false, false)
  }

  // ---------- The invariant ----------

  /** How much of the log a registered client has been visited for. */
  function SeenBy(s: State, c: ClientId): int {
    if s.delivery.Some? && c in s.delivery.value.todo then |s.log| - 1 else |s.log|
  }

  predicate IsSlice(log: seq<Message>, from: nat, part: seq<Message>) {
    from + |part| <= |log| && part == log[from..from + |part|]
  }

  /** The channel is bounded and closed at most once; nothing is lost, repeated or reordered
      between channel and socket, except the one batch that could not be written; and what the
      writer still has to drain is there. */
  ghost predicate Flow(k: Client) {
    && |k.queue| <= CAPACITY && k.closes == (if k.closed then 1 else 0)
    && k.enqueued == k.written + k.lost + k.batch + k.queue
    && (k.lost != [] ==> k.pump == Stopped) && |k.lost| <= CAPACITY + 1
    && (k.batch != [] <==> k.pump == Opened || k.pump.Draining?)
    && (k.pump == Opened ==> |k.batch| == 1)
    && (k.pump.Draining? ==> k.pump.left <= |k.queue| && |k.batch| + k.pump.left <= CAPACITY + 1)
  }

  /** The channel is open while the hub knows the client, and the broadcasts enqueued are one
      gap-free slice of the log, up to now while registered. */
  ghost predicate Standing(s: State, c: ClientId, k: Client) {
    && (k.closed <==> c !in s.registered)
    && IsSlice(s.log, k.since, Casts(k.enqueued))
    && (c in s.registered ==> k.since + |Casts(k.enqueued)| == SeenBy(s, c))
    && (c in s.registered && s.delivery.Some? ==> k.since < |s.log|)
  }

  ghost predicate ClientOk(s: State, c: ClientId, k: Client) {
    Flow(k) && Standing(s, c, k)
  }

  ghost predicate Inv(s: State) {
    && !s.panicked
    && s.registered <= s.clients.Keys
    && (s.delivery.Some? ==>
          s.delivery.value.todo <= s.registered && s.log != []
          && s.log[|s.log| - 1] == s.delivery.value.message)
    && forall c :: c in s.clients ==> ClientOk(s, c, s.clients[c])
  }

  lemma RegisterKeeps(s: State, ev: Event)
    requires Inv(s) && ev.Register?
    ensures Inv(Next(s, ev))
  {
    var after := Next(s, ev);
    forall c | c in after.clients ensures ClientOk(after, c, after.clients[c]) {
      assert c in s.clients ==> ClientOk(s, c, s.clients[c]);
    }
  }

  /** A reader's state is nobody else's business. */
  lemma ReaderKeeps(s: State, c: ClientId, reader: Reader)
    requires Inv(s) && c in s.clients
    ensures Inv(s.(clients := s.clients[c := s.clients[c].(reader := reader)]))
  {
    var k := s.clients[c].(reader := reader);
    assert ClientOk(s, c, s.clients[c]);
    assert ClientOk(s, c, k);
    OneClientKeeps(s, c, k);
  }

  lemma CloseKeeps(s: State, c: ClientId)
    requires Inv(s) && c in s.registered && s.delivery.None?
    ensures Inv(CloseChannel(s, c).(registered := s.registered - {c}))
  {
    var after := CloseChannel(s, c).(registered := s.registered - {c});
    assert ClientOk(s, c, s.clients[c]);
    forall other | other in after.clients ensures ClientOk(after, other, after.clients[other]) {
      assert ClientOk(s, other, s.clients[other]);
    }
  }

  lemma UnregisterKeeps(s: State, ev: Event)
    requires Inv(s) && ev.Unregister?
    ensures Inv(Next(s, ev))
  {
    if s.delivery.None? && ev.c in s.clients && s.clients[ev.c].reader == Reading {
      ReaderKeeps(s, ev.c, Gone);
      if ev.c in s.registered {
        CloseKeeps(s.(clients := s.clients[ev.c := s.clients[ev.c].(reader := Gone)]), ev.c);
      }
    }
  }

  lemma SliceOfLonger(log: seq<Message>, from: nat, part: seq<Message>, message: Message)
    requires IsSlice(log, from, part)
    ensures IsSlice(log + [message], from, part)
  {
  }

  lemma BeginKeeps(s: State, ev: Event)
    requires Inv(s) && ev.BeginBroadcast?
    ensures Inv(Next(s, ev))
  {
    if s.delivery.None? {
      var after := Next(s, ev);
      forall c | c in after.clients ensures ClientOk(after, c, after.clients[c]) {
        assert ClientOk(s, c, s.clients[c]);
        SliceOfLonger(s.log, s.clients[c].since, Casts(s.clients[c].enqueued), ev.message);
      }
    }
  }

  lemma EndKeeps(s: State, ev: Event)
    requires Inv(s) && ev.EndBroadcast?
    ensures Inv(Next(s, ev))
  {
    var after := Next(s, ev);
    forall c | c in after.clients ensures ClientOk(after, c, after.clients[c]) {
      assert ClientOk(s, c, s.clients[c]);
    }
  }

  /** An item that enters the channel enters its history at the same end. */
  lemma FlowGrows(k: Client, item: Item)
    requires Flow(k) && |k.queue| < CAPACITY
    ensures Flow(Enqueued(k, item))
  {
    var front := k.written + k.lost + k.batch;
    assert (front + k.queue) + [item] == front + (k.queue + [item]);
  }

  /** A ping's answer takes a place in the channel and adds no broadcast. */
  lemma PongIsOk(s: State, c: ClientId, k: Client)
    requires ClientOk(s, c, k) && |k.queue| < CAPACITY
    ensures forall reader :: ClientOk(s, c, Enqueued(k, PongReply).(reader := reader))
  {
    FlowGrows(k, PongReply);
    CastsSnoc(k.enqueued, PongReply);
    assert Casts(k.enqueued + [PongReply]) == Casts(k.enqueued);
  }

  lemma CrashKeeps(s: State)
    requires Inv(s)
    ensures Inv(s.(crashed := true))
  {
    forall c | c in s.clients ensures ClientOk(s.(crashed := true), c, s.clients[c]) {
      assert ClientOk(s, c, s.clients[c]);
    }
  }

  lemma AnswerKeeps(s: State, c: ClientId, reader: Reader)
    requires Inv(s) && c in s.clients && |s.clients[c].queue| < CAPACITY
    ensures Inv(s.(clients := s.clients[c := Enqueued(s.clients[c], PongReply).(reader := reader)]))
  {
    assert ClientOk(s, c, s.clients[c]);
    PongIsOk(s, c, s.clients[c]);
    OneClientKeeps(s, c, Enqueued(s.clients[c], PongReply).(reader := reader));
  }

  lemma PongKeeps(s: State, ev: Event)
    requires Inv(s) && ev.Pong?
    ensures Inv(Next(s, ev))
  {
    if ev.c in s.clients && s.clients[ev.c].reader == Reading {
      if s.clients[ev.c].closed {
        CrashKeeps(s);
      } else if |s.clients[ev.c].queue| >= CAPACITY {
        ReaderKeeps(s, ev.c, Blocked);
      } else {
        AnswerKeeps(s, ev.c, Reading);
      }
    }
  }

  lemma UnblockKeeps(s: State, ev: Event)
    requires Inv(s) && ev.Unblock?
    ensures Inv(Next(s, ev))
  {
    if ev.c in s.clients && |s.clients[ev.c].queue| < CAPACITY {
      AnswerKeeps(s, ev.c, Reading);
    }
  }

  /** A step of one client's writer keeps the invariant if it keeps that client in order. */
  lemma OneClientKeeps(s: State, c: ClientId, k: Client)
    requires Inv(s) && c in s.clients && ClientOk(s, c, k)
    ensures Inv(s.(clients := s.clients[c := k]))
  {
    var after := s.(clients := s.clients[c := k]);
    forall c' | c' in after.clients
      ensures ClientOk(after, c', after.clients[c'])
    {
      assert ClientOk(s, c', after.clients[c']);
    }
  }

  /** Taking the head of the queue keeps the history. */
  lemma HeadMoves(written: seq<Item>, batch: seq<Item>, queue: seq<Item>)
    requires queue != []
    ensures written + batch + queue == written + (batch + [queue[0]]) + queue[1..]
  {
  }

  lemma ReceivedFlow(k: Client, canWrite: bool)
    requires Flow(k)
    ensures Flow(Received(k, canWrite))
  {
    if k.pump == Waiting && k.queue != [] {
      HeadMoves(k.written, [], k.queue);
      assert k.written + k.lost + k.batch == k.written + [];
      assert [] + [k.queue[0]] == [k.queue[0]];
      assert k.written + [] + [k.queue[0]] == k.written + [k.queue[0]];
      assert k.written + [k.queue[0]] + [] == k.written + [k.queue[0]];
    }
  }

  lemma DrainedFlow(k: Client)
    requires Flow(k)
    ensures Flow(Drained(k))
  {
    if k.queue != [] {
      HeadMoves(k.written + k.lost, k.batch, k.queue);
    }
  }

  lemma FlushedFlow(k: Client, ok: bool)
    requires Flow(k)
    ensures Flow(Flushed(k, ok))
  {
    if k.pump == Draining(0) {
      assert k.written + [] + k.batch == k.written + k.batch;
      assert k.written + k.batch + [] == k.written + k.batch;
    }
  }

  lemma WriterFlow(k: Client, ev: Event)
    requires Flow(k)
    ensures Flow(WriterStep(k, ev))
  {
    match ev
    case Receive(_, canWrite) => ReceivedFlow(k, canWrite);
    case DrainOne(_) => DrainedFlow(k);
    case Flush(_, ok) => FlushedFlow(k, ok);
    case _ =>
  }

  lemma WriterKeepsStanding(s: State, c: ClientId, k: Client, ev: Event)
    requires Standing(s, c, k)
    ensures Standing(s, c, WriterStep(k, ev))
  {
  }

  lemma WriterKeeps(s: State, ev: Event)
    requires Inv(s) && IsWriterEvent(ev)
    ensures Inv(Next(s, ev))
  {
    if ev.c in s.clients {
      var k := s.clients[ev.c];
      assert ClientOk(s, ev.c, k);
      WriterFlow(k, ev);
      WriterKeepsStanding(s, ev.c, k, ev);
      OneClientKeeps(s, ev.c, WriterStep(k, ev));
    }
  }

  lemma SliceGrows(log: seq<Message>, from: nat, part: seq<Message>)
    requires log != [] && IsSlice(log[..|log| - 1], from, part) && from + |part| == |log| - 1
    ensures IsSlice(log, from, part + [log[|log| - 1]])
  {
  }

  lemma SliceOfFront(log: seq<Message>, from: nat, part: seq<Message>)
    requires log != [] && IsSlice(log, from, part) && from + |part| <= |log| - 1
    ensures IsSlice(log[..|log| - 1], from, part)
  {
  }

  /** The broadcast of the visited client is the next of its slice. */
  lemma CastIsOk(s: State, c: ClientId, k: Client)
    requires Inv(s) && s.delivery.Some? && c in s.delivery.value.todo && ClientOk(s, c, k) && |k.queue| < CAPACITY
    ensures var item := Cast(s.delivery.value.message);
            var after := s.(delivery := Some(s.delivery.value.(todo := s.delivery.value.todo - {c})));
            ClientOk(after, c, Enqueued(k, item))
  {
    FlowGrows(k, Cast(s.delivery.value.message));
    CastExtendsSlice(s.log, k.since, k.enqueued, s.delivery.value.message);
  }

  lemma CastExtendsSlice(log: seq<Message>, from: nat, items: seq<Item>, message: Message)
    requires log != [] && log[|log| - 1] == message && IsSlice(log, from, Casts(items))
             && from + |Casts(items)| == |log| - 1
    ensures IsSlice(log, from, Casts(items + [Cast(message)])) && |Casts(items + [Cast(message)])| == |Casts(items)| + 1
  {
    CastsSnoc(items, Cast(message));
    SliceOfFront(log, from, Casts(items));
    SliceGrows(log, from, Casts(items));
  }

  /** The visited client has been enqueued the current message, or is closed and forgotten. */
  lemma VisitedClientOk(s: State, c: ClientId)
    requires Inv(s) && s.delivery.Some? && c in s.delivery.value.todo
    ensures var after := Next(s, Visit(c));
            c in after.clients && ClientOk(after, c, after.clients[c]) && !after.panicked
  {
    var k := s.clients[c];
    assert ClientOk(s, c, k);
    if |k.queue| < CAPACITY {
      CastIsOk(s, c, k);
      ClientOkElsewhere(s.(delivery := Some(s.delivery.value.(todo := s.delivery.value.todo - {c}))), Next(s, Visit(c)),
        c);
    }
  }

  /** What `ClientOk` reads of the state besides the client. */
  lemma ClientOkElsewhere(s: State, s': State, c: ClientId)
    requires s'.registered == s.registered && s'.delivery == s.delivery && s'.log == s.log
    ensures forall k :: ClientOk(s, c, k) ==> ClientOk(s', c, k)
  {
  }

  /** A visit leaves every other client's channel and standing alone. */
  lemma OthersUnvisited(s: State, c: ClientId, other: ClientId)
    requires s.delivery.Some? && c in s.delivery.value.todo && c in s.clients && other in s.clients && other != c
    ensures var after := Next(s, Visit(c));
            && other in after.clients && after.clients[other] == s.clients[other]
            && (other in after.registered <==> other in s.registered)
            && after.log == s.log && after.delivery.Some? && SeenBy(after, other) == SeenBy(s, other)
  {
  }

  lemma SameStanding(s: State, after: State, c: ClientId, k: Client)
    requires ClientOk(s, c, k) && (c in after.registered <==> c in s.registered)
    requires after.log == s.log && s.delivery.Some? && after.delivery.Some? && SeenBy(after, c) == SeenBy(s, c)
    ensures ClientOk(after, c, k)
  {
  }

  lemma VisitKeeps(s: State, ev: Event)
    requires Inv(s) && ev.Visit?
    ensures Inv(Next(s, ev))
  {
    var c := ev.c;
    if s.delivery.Some? && c in s.delivery.value.todo {
      VisitedClientOk(s, c);
      var after := Next(s, ev);
      forall other | other in after.clients && other != c
        ensures ClientOk(after, other, after.clients[other])
      {
        OthersUnvisited(s, c, other);
        SameStanding(s, after, other, s.clients[other]);
      }
    }
  }

  lemma StepKeeps(s: State, ev: Event)
    requires Inv(s)
    ensures Inv(Next(s, ev))
  {
    match ev
    case Visit(_) => VisitKeeps(s, ev);
    case Pong(_) => PongKeeps(s, ev);
    case Unblock(_) => UnblockKeeps(s, ev);
    case Register(_) => RegisterKeeps(s, ev);
    case Unregister(_) => UnregisterKeeps(s, ev);
    case BeginBroadcast(_) => BeginKeeps(s, ev);
    case EndBroadcast => EndKeeps(s, ev);
    case _ => WriterKeeps(s, ev);
  }

  /** Every run, with any interleaving of hub and writers, keeps the invariant. */
  lemma {:induction false} RunKeeps(s: State, evs: seq<Event>)
    requires Inv(s)
    ensures Inv(Exec(s, evs))
    decreases |evs|
  {
    if evs != [] {
      StepKeeps(s, evs[0]);
      RunKeeps(Next(s, evs[0]), evs[1..]);
    }
  }

  /** What every run guarantees. The hub never closes a channel twice or sends on a closed one,
      and no channel outgrows its capacity. A client's broadcasts are a contiguous slice of the log
      that starts where it registered, reaching the latest broadcast for which it was visited while
      it is registered; and what its socket got, plus at most one batch lost when the socket failed,
      plus the batch being collected and what is still queued, carries that slice in order. */
  lemma HubGuarantees(start: State, evs: seq<Event>, c: ClientId)
    requires IsStart(start) && c in Exec(start, evs).clients
    ensures var s := Exec(start, evs);
            var k := s.clients[c];
            && !s.panicked && k.closes <= 1 && |k.queue| <= 256
            && (exists upTo :: k.since <= upTo <= |s.log|
                  && Casts(k.written) + Casts(k.lost) + Casts(k.batch) + Casts(k.queue) == s.log[k.since..upTo]
                  && (c in s.registered && s.delivery.None? ==> upTo == |s.log|))
            && |k.lost| <= 257 && (k.lost != [] ==> k.pump == Stopped && k.batch == [])
            && (k.closed <==> c !in s.registered)
  {
    RunKeeps(start, evs);
    var s := Exec(start, evs);
    var k := s.clients[c];
    assert ClientOk(s, c, k);
    CastsOfFlow(k);
    var upTo := k.since + |Casts(k.enqueued)|;
    assert k.since <= upTo <= |s.log| && Casts(k.enqueued) == s.log[k.since..upTo];
  }

  lemma CastsOfFlow(k: Client)
    requires Flow(k)
    ensures Casts(k.enqueued) == Casts(k.written) + Casts(k.lost) + Casts(k.batch) + Casts(k.queue)
  {
    CastsAppend(k.written + k.lost + k.batch, k.queue);
    CastsAppend(k.written + k.lost, k.batch);
    CastsAppend(k.written, k.lost);
  }

  /** What the hub's discipline does not cover: the client's reader sends on the same channel. In
      every reachable state a step crashes exactly if it answers a ping of a client that the hub
      has already forgotten, or evicts a client whose reader is blocked in such an answer. */
  lemma CrashesIffPongMeetsEviction(start: State, evs: seq<Event>, ev: Event)
    requires IsStart(start) && !Exec(start, evs).crashed
    ensures var s := Exec(start, evs);
            Next(s, ev).crashed
            <==> || (ev.Pong? && ev.c in s.clients && s.clients[ev.c].reader == Reading && ev.c !in s.registered)
                 || (ev.Visit? && ev.c in s.clients && s.delivery.Some? && ev.c in s.delivery.value.todo
                     && |s.clients[ev.c].queue| >= CAPACITY && s.clients[ev.c].reader == Blocked)
  {
    RunKeeps(start, evs);
    var s := Exec(start, evs);
    if (ev.Pong? || ev.Visit?) && ev.c in s.clients {
      assert ClientOk(s, ev.c, s.clients[ev.c]);
    }
  }

  /** The inner receive of the writer never blocks and never reads a closed, empty channel: what
      it still has to drain is in the queue. */
  lemma DrainNeverBlocks(start: State, evs: seq<Event>, c: ClientId)
    requires IsStart(start) && c in Exec(start, evs).clients
    ensures var k := Exec(start, evs).clients[c]; k.pump.Draining? && k.pump.left > 0 ==> k.queue != []
  {
    RunKeeps(start, evs);
    assert ClientOk(Exec(start, evs), c, Exec(start, evs).clients[c]);
  }

  /** A stopped writer takes nothing more. */
  lemma {:induction false} StoppedStays(s: State, evs: seq<Event>, c: ClientId)
    requires c in s.clients && s.clients[c].pump == Stopped
    ensures c in Exec(s, evs).clients && SameTaken(s.clients[c], Exec(s, evs).clients[c])
    decreases |evs|
  {
    if evs != [] {
      StoppedStep(s, evs[0], c);
      StoppedStays(Next(s, evs[0]), evs[1..], c);
    }
  }

  lemma StoppedStep(s: State, ev: Event, c: ClientId)
    requires c in s.clients && s.clients[c].pump == Stopped
    ensures c in Next(s, ev).clients && SameTaken(s.clients[c], Next(s, ev).clients[c])
  {
    if IsWriterEvent(ev) {
      StoppedWriterRests(s.clients[c], ev);
    }
  }

  lemma StoppedWriterRests(k: Client, ev: Event)
    requires k.pump == Stopped
    ensures WriterStep(k, ev) == k
  {
  }

  /** Both have stopped with the same items taken. */
  predicate SameTaken(k: Client, k': Client) {
    && k.pump == Stopped && k'.pump == Stopped && k'.since == k.since
    && k'.written == k.written && k'.lost == k.lost && k'.batch == k.batch
  }

  // ---------- What a writer delivers ----------

  /** One of the ways a writer can fail. */
  predicate Fails(ev: Event, c: ClientId) {
    (ev.PingFails? && ev.c == c) || ev == Receive(c, false) || ev == Flush(c, false)
  }

  /** A failure at the point where it bites stops the writer for good: nothing is written any more. */
  lemma FailureStopsWriter(s: State, c: ClientId, ev: Event, more: seq<Event>)
    requires c in s.clients && Fails(ev, c)
    requires ev.Flush? ==> s.clients[c].pump == Draining(0)
    requires !ev.Flush? ==> s.clients[c].pump == Waiting
    requires ev.Receive? ==> s.clients[c].queue != []
    ensures var after := Exec(Next(s, ev), more);
            c in after.clients && after.clients[c].pump == Stopped && after.clients[c].written == s.clients[c].written
  {
    StoppedStays(Next(s, ev), more, c);
  }

  /** Nothing was lost, and the writer has stopped only on a closed and empty channel. */
  predicate Healthy(k: Client) {
    k.lost == [] && (k.pump == Stopped ==> k.closed && k.queue == [])
  }

  lemma HealthyStep(s: State, ev: Event, c: ClientId)
    requires !Fails(ev, c) && (c in s.clients ==> Healthy(s.clients[c]))
    ensures c in Next(s, ev).clients ==> Healthy(Next(s, ev).clients[c])
  {
    if IsWriterEvent(ev) && c in s.clients && ev.c == c {
      HealthyWriter(s.clients[c], ev);
    }
  }

  lemma HealthyWriter(k: Client, ev: Event)
    requires Healthy(k) && IsWriterEvent(ev) && !Fails(ev, ev.c)
    ensures Healthy(WriterStep(k, ev))
  {
  }

  /** Over every run in which its writer does not fail, a client loses nothing, and its writer ends
      only once the channel is closed and drained. */
  lemma {:induction false} NothingLostWithoutFailure(s: State, evs: seq<Event>, c: ClientId)
    requires c in s.clients ==> Healthy(s.clients[c])
    requires forall i :: 0 <= i < |evs| ==> !Fails(evs[i], c)
    ensures c in Exec(s, evs).clients ==> Healthy(Exec(s, evs).clients[c])
    decreases |evs|
  {
    if evs != [] {
      assert forall i :: 0 <= i < |evs[1..]| ==> evs[1..][i] == evs[i + 1];
      HealthyStep(s, evs[0], c);
      NothingLostWithoutFailure(Next(s, evs[0]), evs[1..], c);
    }
  }

  /** What a sequence of its steps makes of a client. */
  function WriterRun(k: Client, evs: seq<Event>): Client
    decreases |evs|
  {
    if evs == [] then k else WriterRun(WriterStep(k, evs[0]), evs[1..])
  }

  lemma {:induction false} ExecWriter(s: State, evs: seq<Event>, c: ClientId)
    requires c in s.clients && forall i :: 0 <= i < |evs| ==> IsWriterEvent(evs[i]) && evs[i].c == c
    ensures c in Exec(s, evs).clients && Exec(s, evs).clients[c] == WriterRun(s.clients[c], evs)
    decreases |evs|
  {
    if evs != [] {
      assert forall i :: 0 <= i < |evs[1..]| ==> evs[1..][i] == evs[i + 1];
      ExecWriter(Next(s, evs[0]), evs[1..], c);
    }
  }

  /** A batch from its first item on, undisturbed. */
  function Drains(c: ClientId, n: nat): seq<Event> {
    if n == 0 then [Flush(c, true)] else [DrainOne(c)] + Drains(c, n - 1)
  }

  lemma {:induction false} DrainsAreWriters(c: ClientId, n: nat)
    ensures forall i :: 0 <= i < |Drains(c, n)| ==> IsWriterEvent(Drains(c, n)[i]) && Drains(c, n)[i].c == c
  {
    if n > 0 {
      DrainsAreWriters(c, n - 1);
    }
  }

  lemma {:induction false} DrainsDeliver(k: Client, c: ClientId)
    requires k.pump == Draining(|k.queue|)
    ensures WriterRun(k, Drains(c, |k.queue|))
      == k.(queue := [], batch := [], written := k.written + (k.batch + k.queue), pump := Waiting)
    decreases |k.queue|
  {
    var evs := Drains(c, |k.queue|);
    if k.queue == [] {
      assert k.batch + k.queue == k.batch;
      assert WriterRun(k, evs) == WriterRun(WriterStep(k, evs[0]), []);
    } else {
      var next := WriterStep(k, DrainOne(c));
      assert evs[0] == DrainOne(c) && evs[1..] == Drains(c, |k.queue| - 1);
      assert next == k.(queue := k.queue[1..], batch := k.batch + [k.queue[0]], pump := Draining(|k.queue| - 1));
      assert k.batch + k.queue == (k.batch + [k.queue[0]]) + k.queue[1..];
      DrainsDeliver(next, c);
    }
  }

  /** A waiting writer that takes, measures, drains and flushes without a failure has written
      exactly what was queued, in order, and waits again. */
  lemma BatchIsDelivered(s: State, c: ClientId)
    requires c in s.clients && s.clients[c].pump == Waiting && s.clients[c].queue != []
    ensures var k := s.clients[c];
            var after := Exec(s, [Receive(c, true), Measure(c)] + Drains(c, |k.queue| - 1));
            && c in after.clients
            && after.clients[c] == k.(queue := [], batch := [], written := k.written + k.queue, pump := Waiting)
  {
    var k := s.clients[c];
    var evs := Drains(c, |k.queue| - 1);
    var s1 := Next(s, Receive(c, true));
    var s2 := Next(s1, Measure(c));
    ExecAppend(s, [], Receive(c, true));
    ExecAppend(s, [Receive(c, true)], Measure(c));
    assert [] + [Receive(c, true)] == [Receive(c, true)];
    assert [Receive(c, true)] + [Measure(c)] == [Receive(c, true), Measure(c)];
    ExecConcat(s, [Receive(c, true), Measure(c)], evs);
    DrainsAreWriters(c, |k.queue| - 1);
    ExecWriter(s2, evs, c);
    DrainsDeliver(s2.clients[c], c);
    assert [k.queue[0]] + k.queue[1..] == k.queue;
  }

  // ---------- What the hub does to its clients ----------

  /** A registered client has a new, open and empty channel, and hears what comes from now on. */
  lemma RegisterAdds(s: State, c: ClientId)
    requires Inv(s) && s.delivery.None? && c !in s.clients
    ensures var after := Next(s, Register(c));
            && after.registered == s.registered + {c} && c in after.clients
            && after.clients[c].queue == [] && !after.clients[c].closed && after.clients[c].since == |s.log|
            && forall other :: other in s.clients ==> other in after.clients && after.clients[other] == s.clients[other]
  {
  }

  /** A client whose reader ends is forgotten and its channel closed; nobody else is affected. */
  lemma UnregisterForgets(s: State, c: ClientId)
    requires Inv(s) && s.delivery.None? && c in s.clients && s.clients[c].reader == Reading
    ensures var after := Next(s, Unregister(c));
            && after.registered == s.registered - {c} && c in after.clients
            && after.clients[c].closed && after.clients[c].reader == Gone
            && after.clients[c].queue == s.clients[c].queue
            && forall other :: other in s.clients && other != c ==>
                 other in after.clients && after.clients[other] == s.clients[other]
  {
    assert ClientOk(s, c, s.clients[c]);
  }

  /** A visited client with room gets the message and stays; one without is closed and forgotten. */
  lemma VisitOutcome(s: State, c: ClientId)
    requires Inv(s) && s.delivery.Some? && c in s.delivery.value.todo
    ensures var after := Next(s, Visit(c));
            var k := s.clients[c];
            && c in after.clients
            && (|k.queue| < 256 ==>
                  after.registered == s.registered && !after.clients[c].closed
                  && after.clients[c].queue == k.queue + [Cast(s.delivery.value.message)])
            && (|k.queue| == 256 ==>
                  after.registered == s.registered - {c} && after.clients[c].closed
                  && after.clients[c].queue == k.queue)
            && forall other :: other in s.clients && other != c ==>
                 other in after.clients && after.clients[other] == s.clients[other]
  {
    assert ClientOk(s, c, s.clients[c]);
  }

  /** A ping is answered behind what is queued; with a full channel the reader waits, and answers
      as soon as there is room. */
  lemma PongOutcome(s: State, c: ClientId)
    requires Inv(s) && c in s.registered
    ensures var k := s.clients[c];
            var after, later := Next(s, Pong(c)), Next(s, Unblock(c));
            && c in after.clients && c in later.clients
            && (k.reader == Reading && |k.queue| < 256 ==>
                  after.clients[c].queue == k.queue + [PongReply] && after.clients[c].reader == Reading)
            && (k.reader == Reading && |k.queue| == 256 ==>
                  after.clients[c].queue == k.queue && after.clients[c].reader == Blocked)
            && (k.reader == Blocked && |k.queue| < 256 ==>
                  later.clients[c].queue == k.queue + [PongReply] && later.clients[c].reader == Reading)
            && (k.reader == Blocked && |k.queue| == 256 ==> later == s)
            && (k.reader != Reading ==> after == s) && (k.reader != Blocked ==> later == s)
  {
    assert ClientOk(s, c, s.clients[c]);
  }

  // ---------- Slow clients ----------

  /** How far into the log a client's writer has got. */
  function Taken(k: Client): nat {
    k.since + |Casts(k.written)| + |Casts(k.lost)| + |Casts(k.batch)|
  }

  /** While a client is registered, no more broadcasts than its channel holds lie past what its
      writer has taken. */
  lemma LagIsBounded(start: State, evs: seq<Event>, c: ClientId)
    requires IsStart(start) && c in Exec(start, evs).clients
    ensures var s := Exec(start, evs);
            c in s.registered && s.delivery.None? ==> |s.log| <= Taken(s.clients[c]) + CAPACITY
  {
    RunKeeps(start, evs);
    var s := Exec(start, evs);
    assert ClientOk(s, c, s.clients[c]);
    CastsOfFlow(s.clients[c]);
    CastsShorter(s.clients[c].queue);
  }

  /** So a client whose writer has stopped is evicted: once more broadcasts have been made past
      what the writer took than the channel holds, the hub has forgotten the client. */
  lemma StoppedClientIsEvicted(start: State, before: seq<Event>, after: seq<Event>, c: ClientId)
    requires IsStart(start) && c in Exec(start, before).clients && Exec(start, before).clients[c].pump == Stopped
    ensures var end := Exec(Exec(start, before), after);
            end.delivery.None? && |end.log| > Taken(Exec(start, before).clients[c]) + CAPACITY ==>
              c !in end.registered && c in end.clients && end.clients[c].closed
  {
    StoppedStays(Exec(start, before), after, c);
    ExecConcat(start, before, after);
    LagIsBounded(start, before + after, c);
    RunKeeps(start, before + after);
    var end := Exec(start, before + after);
    assert ClientOk(end, c, end.clients[c]);
  }

  // ---------- The goroutines ----------

  lemma {:induction false} ExecAppend(s: State, evs: seq<Event>, ev: Event)
    ensures Exec(s, evs + [ev]) == Next(Exec(s, evs), ev)
    decreases |evs|
  {
    if evs == [] {
      assert evs + [ev] == [ev];
    } else {
      assert (evs + [ev])[1..] == evs[1..] + [ev];
      ExecAppend(Next(s, evs[0]), evs[1..], ev);
    }
  }

  lemma {:induction false} ExecConcat(s: State, a: seq<Event>, b: seq<Event>)
    ensures Exec(s, a + b) == Exec(Exec(s, a), b)
    decreases |a|
  {
    if a == [] {
      assert [] + b == b;
    } else {
      assert (a + b)[1..] == a[1..] + b;
      ExecConcat(Next(s, a[0]), a[1..], b);
    }
  }

  predicate IsClientEvent(ev: Event) {
    IsWriterEvent(ev) || ev.Pong? || ev.Unblock?
  }

  class Hub {
    /** The hub's own table, and the channels, which the writers share. */
    var registered: set<ClientId>
    var channels: map<ClientId, Client>
    var log: seq<Message>
    /** Set by an operation that would panic. */
    var panicked: bool
    var crashed: bool
    ghost var delivery: Option<Delivery>

    ghost function Snapshot(): State
      reads this
    {
      State(registered, channels, delivery, log, panicked, crashed)
    }

    constructor ()
      ensures IsStart(Snapshot())
    {
      registered, channels, log, panicked, crashed, delivery := {}, map[], [], false, false, None;
    }

    method RegisterClient(c: ClientId)
      requires delivery.None? && c !in channels
      modifies this
      ensures Snapshot() == Next(old(Snapshot()), Register(c))
    {
      channels := channels[c := NewClient(|log|)];
      registered := registered + {c};
    }

    /** The reader's last act. */
    method UnregisterClient(c: ClientId)
      requires delivery.None? && c in channels && channels[c].reader == Reading
      modifies this
      ensures Snapshot() == Next(old(Snapshot()), Unregister(c))
    {
      channels := channels[c := channels[c].(reader := Gone)];
      if c in registered {
        Close(c);
        registered := registered - {c};
      }
    }

    /** close(client.send), which a reader blocked in a send does not survive. */
    method Close(c: ClientId)
      requires c in channels
      modifies this`channels, this`panicked, this`crashed
      ensures Snapshot() == CloseChannel(old(Snapshot()), c)
    {
      var k := channels[c];
      if k.closed {
        panicked := true;
      } else {
        channels := channels[c := k.(closed := true, closes := k.closes + 1)];
        if k.reader == Blocked { crashed := true; }
      }
    }

    /** The select with a default case: send if there is room, otherwise evict. */
    method VisitClient(c: ClientId, message: Message)
      requires delivery.Some? && c in delivery.value.todo && delivery.value.message == message && c in channels
      modifies this
      ensures Snapshot() == Next(old(Snapshot()), Visit(c))
    {
      delivery := Some(delivery.value.(todo := delivery.value.todo - {c}));
      var k := channels[c];
      if |k.queue| < CAPACITY {
        if k.closed {
          panicked := true;
        } else {
          channels := channels[c := Enqueued(k, Cast(message))];
        }
      } else {
        Close(c);
        registered := registered - {c};
      }
    }

    /** The reader answers a ping: a send that may block, or hit a closed channel. */
    method AnswerPing(c: ClientId)
      requires c in channels && channels[c].reader == Reading
      modifies this`channels, this`crashed
      ensures Snapshot() == Next(old(Snapshot()), Pong(c))
    {
      var k := channels[c];
      if k.closed {
        crashed := true;
      } else if |k.queue| >= CAPACITY {
        channels := channels[c := k.(reader := Blocked)];
      } else {
        channels := channels[c := Enqueued(k, PongReply)];
      }
    }

    /** One step of a writer goroutine. */
    method WritePump(ev: Event)
      requires IsWriterEvent(ev) && ev.c in channels
      modifies this`channels
      ensures Snapshot() == Next(old(Snapshot()), ev)
    {
      var k := channels[ev.c];
      if ev.Receive? && k.pump == Waiting {
        if k.queue == [] {
          if k.closed { k := k.(pump := Stopped); }
        } else if ev.canWrite {
          k := k.(queue := k.queue[1..], batch := [k.queue[0]], pump := Opened);
        } else {
          k := k.(queue := k.queue[1..], lost := [k.queue[0]], pump := Stopped);
        }
      } else if ev.Measure? && k.pump == Opened {
        var n := |k.queue|;
        k := k.(pump := Draining(n));
      } else if ev.DrainOne? && k.pump.Draining? && k.pump.left > 0 && k.queue != [] {
        k := k.(queue := k.queue[1..], batch := k.batch + [k.queue[0]], pump := Draining(k.pump.left - 1));
      } else if ev.Flush? && k.pump == Draining(0) {
        if ev.ok {
          k := k.(written := k.written + k.batch, batch := [], pump := Waiting);
        } else {
          k := k.(lost := k.batch, batch := [], pump := Stopped);
        }
      } else if ev.PingFails? && k.pump == Waiting {
        k := k.(pump := Stopped);
      }
      channels := channels[ev.c := k];
    }

    /** One step of a writer or reader goroutine. */
    method ClientStep(ev: Event)
      requires IsClientEvent(ev)
      modifies this`channels, this`crashed
      ensures Snapshot() == Next(old(Snapshot()), ev)
    {
      if ev.c !in channels { return; }
      if IsWriterEvent(ev) {
        WritePump(ev);
      } else if ev.Pong? {
        if channels[ev.c].reader == Reading { AnswerPing(ev.c); }
      } else if channels[ev.c].reader == Blocked && !channels[ev.c].closed && |channels[ev.c].queue| < CAPACITY {
        channels := channels[ev.c := Enqueued(channels[ev.c], PongReply).(reader := Reading)];
      }
    }

    /** The writers and readers run for a while. */
    method RunClients(evs: seq<Event>)
      requires forall i :: 0 <= i < |evs| ==> IsClientEvent(evs[i])
      modifies this`channels, this`crashed
      ensures Snapshot() == Exec(old(Snapshot()), evs)
    {
      for i := 0 to |evs|
        invariant Exec(Snapshot(), evs[i..]) == Exec(old(Snapshot()), evs)
      {
        assert evs[i..][1..] == evs[i + 1..];
        ClientStep(evs[i]);
      }
    }

    /** One turn of the broadcast loop: the clients run for a while, then one client is visited. */
    method VisitNext(c: ClientId, message: Message, evs: seq<Event>)
      requires Inv(Snapshot()) && delivery.Some? && c in delivery.value.todo && delivery.value.message == message
      requires forall i :: 0 <= i < |evs| ==> IsClientEvent(evs[i])
      modifies this
      ensures Inv(Snapshot()) && Snapshot() == Exec(old(Snapshot()), evs + [Visit(c)])
      ensures delivery == Some(Delivery(message, old(delivery).value.todo - {c})) && log == old(log)
      ensures registered <= old(registered)
    {
      ghost var before := Snapshot();
      RunKeeps(before, evs + [Visit(c)]);
      ExecAppend(before, evs, Visit(c));
      RunClients(evs);
      VisitClient(c, message);
    }

    /** One broadcast: every registered client is visited once, in any order, while the clients
        run between visits. Afterwards each client that is still registered has been enqueued
        the message; the others are closed. */
    method BroadcastMessage(message: Message, clients: nat -> seq<Event>) returns (ghost script: seq<Event>)
      requires Inv(Snapshot()) && delivery.None?
      requires forall n, i :: 0 <= i < |clients(n)| ==> IsClientEvent(clients(n)[i])
      modifies this
      ensures Snapshot() == Exec(old(Snapshot()), script)
      ensures Inv(Snapshot()) && delivery.None? && log == old(log) + [message]
      ensures registered <= old(registered)
      ensures forall c :: c in registered ==> c in channels && LastIs(Casts(channels[c].enqueued), message)
    {
      BeginKeeps(Snapshot(), BeginBroadcast(message));
      ExecAppend(Snapshot(), [], BeginBroadcast(message));
      script := [] + [BeginBroadcast(message)];
      var todo := registered;
      delivery := Some(Delivery(message, todo));
      log := log + [message];
      var n := 0;
      while todo != {}
        invariant Inv(Snapshot()) && Snapshot() == Exec(old(Snapshot()), script)
        invariant delivery == Some(Delivery(message, todo)) && log == old(log) + [message]
        invariant registered <= old(registered)
        decreases todo
      {
        var c :| c in todo;
        ExecConcat(old(Snapshot()), script, clients(n) + [Visit(c)]);
        VisitNext(c, message, clients(n));
        script := script + (clients(n) + [Visit(c)]);
        todo := todo - {c};
        n := n + 1;
      }
      LastEnqueued(Snapshot(), message);
      EndKeeps(Snapshot(), EndBroadcast);
      ExecAppend(old(Snapshot()), script, EndBroadcast);
      delivery := None;
      script := script + [EndBroadcast];
    }
  }

  predicate LastIs(messages: seq<Message>, message: Message) {
    messages != [] && messages[|messages| - 1] == message
  }

  /** When nobody is left to visit, every registered client's last broadcast is the current one. */
  lemma LastEnqueued(s: State, message: Message)
    requires Inv(s) && s.delivery == Some(Delivery(message, {}))
    ensures forall c :: c in s.registered ==> c in s.clients && LastIs(Casts(s.clients[c].enqueued), message)
  {
    forall c | c in s.registered
      ensures LastIs(Casts(s.clients[c].enqueued), message)
    {
      assert ClientOk(s, c, s.clients[c]);
    }
  }
}
