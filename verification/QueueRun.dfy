/**
 Whole runs of a queue: the byte-level queue is compared, event by event, with
 a plain bounded first-in first-out queue, across segment changes and restarts.
 */
module QueueRun {
  import opened Bytes
  import opened Frame
  import opened Store
  import opened Fifo
  import opened QueueManage
  import opened QueueSteps
  import opened EarlyQueue
  import Names
  import Tags

  datatype Op = Send(m: Message, space: bool) | Receive | Restart(listing: seq<Names.Entry>)

  datatype Out = Accepted | Refused | NoRoom | BadLength | Delivered(m: Message) | Empty | Restarted

  datatype Event = Event(op: Op, out: Out)

  function PushOut(code: PushCode): Out {
    match code case PushOk => Accepted case Full => Refused case PushError => NoRoom
  }

  /** One call of mq_store_put, of mq_store_get, or a close followed by an open. */
  ghost predicate Steps(q: Queue, e: Event, n: Queue)
    requires Shape(q)
  {
    match e.op
    case Send(m, space) =>
      if !Sendable(q, m) then e.out == BadLength && n == q
      else var p := Push(q, m, space); n == p.q && e.out == PushOut(p.code)
    case Receive =>
      var g := Pop(q);
      n == g.q && e.out == (if g.msg.Some? then Delivered(g.msg.value) else Empty)
    case Restart(listing) =>
      && q.w.index < Names.LIMIT && Names.Lists(listing, q.r.index, q.w.index)
      && Reopen(Close(q), listing, q.maxque) == Some(n) && e.out == Restarted
  }

  /** The states that `events` lead to from `q0`. */
  ghost predicate Run(q0: Queue, events: seq<Event>, q: Queue) {
    if events == [] then q == q0
    else exists mid :: Shape(mid) && Run(q0, events[..|events| - 1], mid) && Steps(mid, events[|events| - 1], q)
  }

  predicate Accepts(e: Event) {
    e.op.Send? && e.out == Accepted
  }

  predicate Delivers(e: Event) {
    e.op.Receive? && e.out.Delivered?
  }

  function Acceptances(events: seq<Event>): seq<Message> {
    if events == [] then []
    else
      var e := events[|events| - 1];
      Acceptances(events[..|events| - 1]) + if Accepts(e) then [e.op.m] else []
  }

  function Deliveries(events: seq<Event>): seq<Message> {
    if events == [] then []
    else
      var e := events[|events| - 1];
      Deliveries(events[..|events| - 1]) + if Delivers(e) then [e.out.m] else []
  }

  // ---- the reference queue ----

  /** The reference queue after an event. */
  function Next(a: Abs, e: Event, maxque: nat): Abs {
    match e.op
    case Send(m, _) => if e.out == Accepted then AfterPush(a, m) else a
    case Receive => if e.out.Delivered? && a.items != [] then AfterPop(a, maxque) else a
    case Restart(_) => AfterReopen(a)
  }

  /** What the reference queue lets an event report. */
  predicate Right(a: Abs, e: Event, max: nat, maxque: nat) {
    match e.op
    case Send(m, space) =>
      if !Legal(m, max) then e.out == BadLength
      else if maxque != 0 && (a.lost || |a.items| == maxque) then e.out == Refused
      else e.out == Accepted || (e.out == NoRoom && !space)
    case Receive => e.out == if a.items == [] then Empty else Delivered(a.items[0])
    case Restart(_) => e.out == Restarted
  }

  predicate Legal(m: Message, max: nat) {
    1 <= |m.body| <= max - FILE_HEAD - HEAD_LEN
  }

  function After(a: Abs, events: seq<Event>, maxque: nat): Abs {
    if events == [] then a
    else Next(After(a, events[..|events| - 1], maxque), events[|events| - 1], maxque)
  }

  predicate AllRight(a: Abs, events: seq<Event>, max: nat, maxque: nat) {
    forall k | 0 <= k < |events| :: Right(After(a, events[..k], maxque), events[k], max, maxque)
  }

  /** No restart before the first accepted message. */
  predicate NoEarlyRestart(a: Abs, events: seq<Event>, maxque: nat) {
    forall k | 0 <= k < |events| :: events[k].op.Restart? ==> After(a, events[..k], maxque).pushed
  }

  // ---- every step ----

  /** The queue stands for `a`; as long as nothing was pushed it is as it was created. */
  ghost predicate Ordinary(q: Queue, a: Abs) {
    Shape(q) && Inv(q, a) && (a.pushed || (q == Create(q.max, q.maxque) && a == EMPTY))
  }

  /** A queue of limit one may also have been reopened early. */
  ghost predicate Kept(q: Queue, a: Abs) {
    Ordinary(q, a) || (q.maxque == 1 && exists logged :: Low(q, a, logged))
  }

  lemma InvGivesShape(q: Queue, a: Abs)
    requires Inv(q, a)
    ensures Shape(q)
  {
    hide Shape, Segments, Counted, ReadLogged, WriteLogged;
  }

  lemma CreateOrdinary(max: nat, maxque: nat)
    requires FILE_HEAD + HEAD_LEN < max <= MAX_FILE && maxque < U32
    ensures Ordinary(Create(max, maxque), EMPTY)
    ensures Create(max, maxque).max == max && Create(max, maxque).maxque == maxque
  {
    hide Inv, Shape;
    CreateInv(max, maxque);
    CreateShape(max, maxque);
  }

  /** The first message always fits, and there is nothing to get before it. */
  lemma FreshSteps(max: nat, maxque: nat, m: Message)
    requires Shape(Create(max, maxque))
    ensures Sendable(Create(max, maxque), m) ==> !NeedsRoll(Create(max, maxque), m)
    ensures Pop(Create(max, maxque)) == GetResult(Create(max, maxque), None)
  {
    hide NewFile, Tags.Line;
  }

  lemma OrdinarySend(q: Queue, a: Abs, m: Message, space: bool)
    requires Ordinary(q, a) && Sendable(q, m) && |a.items| + 1 < U64
    ensures var p := Push(q, m, space); var e := Event(Send(m, space), PushOut(p.code));
            Right(a, e, q.max, q.maxque) && Ordinary(p.q, Next(a, e, q.maxque)) && p.q.max == q.max && p.q.maxque == q.maxque
  {
    hide Shape, Inv, Create, PutData, IsFull;
    PushInv(q, a, m, space);
    InvGivesShape(Push(q, m, space).q, if Push(q, m, space).code == PushOk then AfterPush(a, m) else a);
    if !a.pushed { FreshSteps(q.max, q.maxque, m); FreshPush(q, m, space); }
  }

  lemma FreshPush(q: Queue, m: Message, space: bool)
    requires Shape(q) && Sendable(q, m) && !NeedsRoll(q, m)
    ensures Push(q, m, space).code != PushError && (Push(q, m, space).code == Full ==> Push(q, m, space).q == q)
  {
    hide IsFull, WriteMsg, LogWrite;
  }

  lemma OrdinaryReceive(q: Queue, a: Abs)
    requires Ordinary(q, a)
    ensures var g := Pop(q); var e := Event(Receive, if g.msg.Some? then Delivered(g.msg.value) else Empty);
            Right(a, e, q.max, q.maxque) && Ordinary(g.q, Next(a, e, q.maxque)) && g.q.max == q.max && g.q.maxque == q.maxque
  {
    hide Shape, Inv, Create, Pop;
    PopInv(q, a);
    InvGivesShape(Pop(q).q, if a.items == [] then a else AfterPop(a, q.maxque));
    if !a.pushed { FreshSteps(q.max, q.maxque, Message(0, [])); }
  }

  lemma OrdinaryRestart(q: Queue, a: Abs, listing: seq<Names.Entry>, n: Queue)
    requires Ordinary(q, a) && (a.pushed || q.maxque == 1)
    requires Steps(q, Event(Restart(listing), Restarted), n)
    ensures Kept(n, AfterReopen(a)) && n.max == q.max && n.maxque == q.maxque
  {
    hide Inv, Reopen, Close, Names.Lists, Low, Create, Files, Owns;
    if a.pushed {
      ReopenInv(q, a, listing, q.maxque);
      InvGivesShape(n, AfterReopen(a));
    } else {
      FreshPlaces(q.max, q.maxque);
      EarlyReopen(q.max, q.maxque, listing, q.maxque);
      assert AfterReopen(EMPTY) == EMPTY && Low(n, EMPTY, 0);
    }
  }

  lemma FreshPlaces(max: nat, maxque: nat)
    ensures Create(max, maxque).r.index == 1 && Create(max, maxque).w.index == 1
    ensures Shape(Create(max, maxque)) ==> FILE_HEAD + HEAD_LEN < max <= MAX_FILE && maxque < U32
  {}

  /** With a limit of one nothing is unread when a message is accepted. */
  lemma LowSend(q: Queue, a: Abs, logged: nat, m: Message, space: bool)
    requires Low(q, a, logged) && q.maxque == 1 && Sendable(q, m)
    ensures var p := Push(q, m, space); var e := Event(Send(m, space), PushOut(p.code));
            Right(a, e, q.max, 1) && Kept(p.q, Next(a, e, 1)) && p.q.max == q.max && p.q.maxque == 1
  {
    hide Shape, Stretch, LogsAt, Inv, Push;
    FullExactly(q, a, logged);
    PushWhenFull(q, m, space);
    if !IsFull(q) {
      PushNotFull(q, a, logged);
      if !NeedsRoll(q, m) {
        LowPush(q, a, logged, m, space);
      } else if space {
        LowRoll(q, a, logged, m);
        InvGivesShape(Push(q, m, space).q, AfterPush(a, m));
      } else {
        LowStamp(q, a, logged, m);
      }
    }
  }

  lemma PushWhenFull(q: Queue, m: Message, space: bool)
    requires Shape(q) && Sendable(q, m)
    ensures IsFull(q) ==> Push(q, m, space) == PushResult(q, Full)
  {}

  /** Every event of a kept queue is the one the reference queue allows, and the queue is kept. */
  lemma StepRefines(q: Queue, a: Abs, e: Event, n: Queue)
    requires Shape(q) && Kept(q, a) && Steps(q, e, n)
    requires |a.items| + 1 < U64 && (e.op.Restart? ==> a.pushed || q.maxque == 1)
    ensures Right(a, e, q.max, q.maxque)
    ensures Kept(n, Next(a, e, q.maxque)) && n.max == q.max && n.maxque == q.maxque
    ensures |Next(a, e, q.maxque).items| <= |a.items| + 1
  {
    hide Shape, Ordinary, Low, Push, Pop, Reopen, Close, Names.Lists;
    if Ordinary(q, a) {
      match e.op
      case Send(m, space) => if Sendable(q, m) { OrdinarySend(q, a, m, space); }
      case Receive => OrdinaryReceive(q, a);
      case Restart(listing) => OrdinaryRestart(q, a, listing, n);
    } else {
      var logged :| Low(q, a, logged);
      match e.op
      case Send(m, space) => if Sendable(q, m) { LowSend(q, a, logged, m, space); }
      case Receive => LowReceive(q, a, logged);
      case Restart(listing) =>
        LowPlaces(q, a, logged);
        LowReopen(q, a, logged, listing, q.maxque);
    }
  }

  lemma LowReceive(q: Queue, a: Abs, logged: nat)
    requires Low(q, a, logged)
    ensures var g := Pop(q); var e := Event(Receive, if g.msg.Some? then Delivered(g.msg.value) else Empty);
            Right(a, e, q.max, q.maxque) && Low(g.q, Next(a, e, q.maxque), logged) && g.q.max == q.max && g.q.maxque == q.maxque
  {
    hide Low, Pop;
    LowPlaces(q, a, logged);
    LowPop(q, a, logged);
  }

  lemma LowPlaces(q: Queue, a: Abs, logged: nat)
    requires Low(q, a, logged)
    ensures Shape(q) && q.r.index == q.w.index
  {}

  // ---- every run ----

  /** Restarts are admitted after the first accepted message, and anywhere with a limit of one. */
  predicate Admits(a: Abs, events: seq<Event>, maxque: nat) {
    maxque == 1 || NoEarlyRestart(a, events, maxque)
  }

  lemma OrdinaryStep(q: Queue, a: Abs, e: Event, n: Queue)
    requires Shape(q) && Ordinary(q, a) && Steps(q, e, n) && |a.items| + 1 < U64 && (e.op.Restart? ==> a.pushed)
    ensures Ordinary(n, Next(a, e, q.maxque))
  {
    hide Shape, Inv, Push, Pop, Reopen, Close, Names.Lists, Create;
    match e.op
    case Send(m, space) => if Sendable(q, m) { OrdinarySend(q, a, m, space); }
    case Receive => OrdinaryReceive(q, a);
    case Restart(listing) =>
      ReopenInv(q, a, listing, q.maxque);
      InvGivesShape(n, AfterReopen(a));
  }
  /** Every run agrees with the reference queue, event by event. */
  lemma {:induction false} RunRefines(q0: Queue, a: Abs, events: seq<Event>, q: Queue)
    requires Kept(q0, a) && Run(q0, events, q) && Admits(a, events, q0.maxque) && |a.items| + |events| < U64
    ensures Kept(q, After(a, events, q0.maxque)) && q.max == q0.max && q.maxque == q0.maxque
    ensures Ordinary(q0, a) && NoEarlyRestart(a, events, q0.maxque) ==> Ordinary(q, After(a, events, q0.maxque))
    ensures |After(a, events, q0.maxque).items| <= |a.items| + |events|
    ensures AllRight(a, events, q0.max, q0.maxque)
    decreases |events|
  {
    hide Shape, Kept, Steps, Next, Right, Ordinary;
    if events != [] {
      var n := |events| - 1;
      var front, e := events[..n], events[n];
      var mid :| Shape(mid) && Run(q0, front, mid) && Steps(mid, e, q);
      assert forall k | 0 <= k < n :: front[..k] == events[..k] && front[k] == events[k];
      RunRefines(q0, a, front, mid);
      StepRefines(mid, After(a, front, q0.maxque), e, q);
      if Ordinary(q0, a) && NoEarlyRestart(a, events, q0.maxque) {
        OrdinaryStep(mid, After(a, front, q0.maxque), e, q);
      }
      assert events == front + [e];
    }
  }

  /** In every allowed run, what was delivered and what is unread make up what was there and what was accepted. */
  lemma {:induction false} NothingLost(a: Abs, events: seq<Event>, max: nat, maxque: nat)
    requires AllRight(a, events, max, maxque)
    ensures Deliveries(events) + After(a, events, maxque).items == a.items + Acceptances(events)
    decreases |events|
  {
    hide Right, Next;
    if events != [] {
      var n := |events| - 1;
      var front, e := events[..n], events[n];
      assert forall k | 0 <= k < n :: front[..k] == events[..k] && front[k] == events[k];
      NothingLost(a, front, max, maxque);
      OneEventLosesNothing(Deliveries(front), After(a, front, maxque), e, max, maxque);
      assert a.items + Acceptances(front) + (if Accepts(e) then [e.op.m] else []) == a.items + Acceptances(events);
    }
  }

  lemma OneEventLosesNothing(delivered: seq<Message>, a: Abs, e: Event, max: nat, maxque: nat)
    requires Right(a, e, max, maxque)
    ensures delivered + (if Delivers(e) then [e.out.m] else []) + Next(a, e, maxque).items ==
            delivered + a.items + if Accepts(e) then [e.op.m] else []
  {
    if a.items != [] { assert a.items == [a.items[0]] + a.items[1..]; }
  }

  /**
   The law of the queue: in every run of sends, receives and restarts the
   messages delivered are, in order and byte for byte, the first of the
   messages accepted, and the rest is still unread in the files.
   */
  lemma FirstInFirstOut(max: nat, maxque: nat, events: seq<Event>, q: Queue)
    requires FILE_HEAD + HEAD_LEN < max <= MAX_FILE && maxque < U32
    requires Run(Create(max, maxque), events, q) && Admits(EMPTY, events, maxque) && |events| < U64
    ensures Deliveries(events) <= Acceptances(events)
    ensures exists ms :: Stores(q, ms) && Deliveries(events) + ms == Acceptances(events)
    ensures NoEarlyRestart(EMPTY, events, maxque) ==>
              exists v :: Refines(q, v) && Deliveries(events) + Unread(v) == Acceptances(events)
  {
    hide Shape, Run, Admits, Kept, Ordinary, AllRight, Stores, NoEarlyRestart, Refines, Unread;
    CreateOrdinary(max, maxque);
    OrdinaryKept(Create(max, maxque), EMPTY);
    RunRefines(Create(max, maxque), EMPTY, events, q);
    NothingLost(EMPTY, events, max, maxque);
    KeptStores(q, After(EMPTY, events, maxque));
    assert EMPTY.items + Acceptances(events) == Acceptances(events);
    if NoEarlyRestart(EMPTY, events, maxque) {
      var v := OrdinaryView(q, After(EMPTY, events, maxque));
      assert Refines(q, v) && Deliveries(events) + Unread(v) == Acceptances(events);
    }
  }

  /** The frames of `ms` are in the data files, in order, from the read cursor on. */
  ghost predicate Stores(q: Queue, ms: seq<Message>) {
    || (exists v :: Refines(q, v) && Unread(v) == ms)
    || (q.r.index == q.w.index && q.w.index in q.files && Stretch(q.files[q.w.index], q.r.pos, q.w.pos, ms))
  }

  lemma OrdinaryView(q: Queue, a: Abs) returns (v: View)
    requires Ordinary(q, a)
    ensures Refines(q, v) && Unread(v) == a.items
  {
    hide Shape, Refines, Flatten, Counted, ReadLogged, WriteLogged;
    var w, log :| InvAt(q, a, w, log);
    v := w;
  }

  lemma KeptStores(q: Queue, a: Abs)
    requires Kept(q, a)
    ensures Stores(q, a.items)
  {
    hide Refines, Stretch, Flatten, Counted, ReadLogged, WriteLogged;
  }

  lemma OrdinaryKept(q: Queue, a: Abs)
    requires Ordinary(q, a)
    ensures Kept(q, a)
  {}

  lemma KeptShape(q: Queue, a: Abs)
    requires Kept(q, a)
    ensures Shape(q)
  {}

  /**
   In every run the data files are exactly those from the read to the write
   index, with one tag file each; exactly the two segments in use are mapped and
   open, once for both when they are the same; and closing leaves nothing behind.
   */
  lemma RunOwnership(max: nat, maxque: nat, events: seq<Event>, q: Queue)
    requires FILE_HEAD + HEAD_LEN < max <= MAX_FILE && maxque < U32
    requires Run(Create(max, maxque), events, q) && Admits(EMPTY, events, maxque) && |events| < U64
    ensures Files(q) && Owns(q) && (q.r.mem == q.w.mem <==> q.r.index == q.w.index)
    ensures Close(q).maps == map[] && Close(q).fds == map[]
  {
    hide Shape, Run, Admits, Kept, Ordinary, Close;
    CreateOrdinary(max, maxque);
    OrdinaryKept(Create(max, maxque), EMPTY);
    RunRefines(Create(max, maxque), EMPTY, events, q);
    KeptShape(q, After(EMPTY, events, maxque));
    ShapeOwns(q);
    CloseReleasesAll(q);
  }

  lemma ShapeOwns(q: Queue)
    requires Shape(q)
    ensures Files(q) && Owns(q) && (q.r.mem == q.w.mem <==> q.r.index == q.w.index)
  {}

  // ---- the counters ----

  predicate NoRestart(events: seq<Event>) {
    forall k | 0 <= k < |events| :: !events[k].op.Restart?
  }

  lemma {:induction false} NeverLost(events: seq<Event>, maxque: nat)
    requires NoRestart(events)
    ensures !After(EMPTY, events, maxque).lost
  {
    if events != [] {
      NeverLost(events[..|events| - 1], maxque);
    }
  }

  lemma KeptCounted(q: Queue, a: Abs)
    requires Kept(q, a)
    ensures exists logged :: Counted(q.putNum, q.getNum, q.maxque, a, logged)
  {
    hide Shape, Refines, Flatten, ReadLogged, WriteLogged, LogsAt, Stretch, Counted;
    if Ordinary(q, a) {
      var v, log :| InvAt(q, a, v, log);
      assert Counted(q.putNum, q.getNum, q.maxque, a, log.put);
    }
  }

  /**
   Through every fold of a limited queue the read counter stays below the
   limit, the put counter below twice the limit, and their difference is the
   number of unread messages, at most the limit.
   */
  lemma CountersFold(max: nat, maxque: nat, events: seq<Event>, q: Queue)
    requires FILE_HEAD + HEAD_LEN < max <= MAX_FILE && 0 < maxque < U32
    requires Run(Create(max, maxque), events, q) && NoRestart(events) && |events| < U64
    ensures q.getNum < maxque && q.putNum < 2 * maxque
    ensures |Deliveries(events)| <= |Acceptances(events)|
    ensures q.putNum - q.getNum == |Acceptances(events)| - |Deliveries(events)| <= maxque
  {
    hide Shape, Run, Kept, Ordinary, AllRight;
    CreateOrdinary(max, maxque);
    OrdinaryKept(Create(max, maxque), EMPTY);
    RunRefines(Create(max, maxque), EMPTY, events, q);
    NothingLost(EMPTY, events, max, maxque);
    NeverLost(events, maxque);
    KeptCounted(q, After(EMPTY, events, maxque));
  }
}
