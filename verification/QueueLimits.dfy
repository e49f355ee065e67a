/** Where the promises of a queue end: what a restart may lose, and exactly when. */
module QueueLimits {
  import opened Bytes
  import opened Frame
  import opened Store
  import opened Fifo
  import opened QueueManage
  import opened QueueSteps
  import opened EarlyQueue
  import opened QueueRun
  import Names
  import Tags
  import Crc16

  // ---- the counters ----

  /** Event `k` delivered a message and brought the read counter to the limit. */
  predicate Folds(events: seq<Event>, k: nat, maxque: nat)
    requires k < |events|
  {
    maxque > 0 && Delivers(events[k]) && |Deliveries(events[..k + 1])| % maxque == 0
  }

  /** An event after which the write tag holds the put counter again. */
  predicate Settles(e: Event) {
    Accepts(e) || e.op.Restart?
  }

  /** The counters were folded after the last accepted message and the last restart. */
  ghost predicate FoldPending(events: seq<Event>, maxque: nat) {
    exists k | 0 <= k < |events| :: Folds(events, k, maxque) && NothingSettles(events, k + 1)
  }

  predicate NothingSettles(events: seq<Event>, from: nat) {
    forall j | from <= j < |events| :: !Settles(events[j])
  }

  lemma PendingNone(maxque: nat)
    ensures !FoldPending([], maxque)
  {}

  lemma FoldsFront(events: seq<Event>, k: nat, maxque: nat)
    requires k < |events| - 1
    ensures Folds(events[..|events| - 1], k, maxque) == Folds(events, k, maxque)
  {
    assert events[..|events| - 1][..k + 1] == events[..k + 1];
  }

  /** How one more event changes whether a fold is pending. */
  lemma PendingStep(events: seq<Event>, maxque: nat)
    requires events != []
    ensures var n := |events| - 1;
            FoldPending(events, maxque) <==> !Settles(events[n]) && (FoldPending(events[..n], maxque) || Folds(events, n, maxque))
  {
    hide Folds;
    var n := |events| - 1;
    var front := events[..n];
    if FoldPending(events, maxque) {
      var k :| 0 <= k < |events| && Folds(events, k, maxque) && NothingSettles(events, k + 1);
      if k < n { FoldsFront(events, k, maxque); assert NothingSettles(front, k + 1); } else { FoldNotSettling(events, n, maxque); }
    }
    if !Settles(events[n]) && FoldPending(front, maxque) {
      var k :| 0 <= k < |front| && Folds(front, k, maxque) && NothingSettles(front, k + 1);
      FoldsFront(events, k, maxque);
      forall j | k + 1 <= j < |events| ensures !Settles(events[j]) { if j < n { assert events[j] == front[j]; } }
      assert Folds(events, k, maxque) && NothingSettles(events, k + 1);
    }
    if !Settles(events[n]) && Folds(events, n, maxque) { assert NothingSettles(events, n + 1); }
  }

  lemma FoldNotSettling(events: seq<Event>, k: nat, maxque: nat)
    requires k < |events| && Folds(events, k, maxque)
    ensures !Settles(events[k])
  {}

  /** The reference queue counts the deliveries up to the limit and is stale exactly when a fold is pending. */
  lemma {:induction false} StaleMeansPending(events: seq<Event>, max: nat, maxque: nat)
    requires AllRight(EMPTY, events, max, maxque) && maxque > 0
    ensures var a := After(EMPTY, events, maxque);
            a.gets == |Deliveries(events)| % maxque && (a.stale <==> FoldPending(events, maxque))
  {
    hide Right, Next;
    if events == [] {
      PendingNone(maxque);
    } else {
      var n := |events| - 1;
      var front, e := events[..n], events[n];
      assert forall k | 0 <= k < n :: front[..k] == events[..k] && front[k] == events[k];
      StaleMeansPending(front, max, maxque);
      PendingStep(events, maxque);
      assert events[..n + 1] == events;
      StaleStep(After(EMPTY, front, maxque), e, |Deliveries(front)|, max, maxque);
    }
  }

  lemma StaleStep(a: Abs, e: Event, delivered: nat, max: nat, maxque: nat)
    requires Right(a, e, max, maxque) && maxque > 0 && a.gets == delivered % maxque
    ensures var count := delivered + if Delivers(e) then 1 else 0;
            && Next(a, e, maxque).gets == count % maxque
            && (Next(a, e, maxque).stale <==> !Settles(e) && (a.stale || (Delivers(e) && count % maxque == 0)))
  {
    ModSuccessor(delivered, maxque);
  }

  lemma ModSuccessor(n: nat, m: nat)
    requires m > 0
    ensures (n + 1) % m == if n % m + 1 == m then 0 else n % m + 1
  {
    var q, r := n / m, n % m;
    var s, t := (n + 1) / m, (n + 1) % m;
    assert n == m * q + r && n + 1 == m * s + t;
    if r + 1 == m {
      assert m * (q + 1) == m * q + m;
      SameRemainder(m, q + 1, 0, s, t);
    } else {
      SameRemainder(m, q, r + 1, s, t);
    }
  }

  lemma SameRemainder(m: nat, a: nat, r: nat, b: nat, s: nat)
    requires m * a + r == m * b + s && r < m && s < m
    ensures r == s
  {
    assert m * (a - b) == m * a - m * b && m * (b - a) == m * b - m * a;
    if a > b { AtLeast(m, a - b); }
    if b > a { AtLeast(m, b - a); }
  }

  lemma AtLeast(m: nat, k: nat)
    requires k >= 1
    ensures m * k >= m
  {}

  lemma CreatedRun(max: nat, maxque: nat, events: seq<Event>, q: Queue)
    requires FILE_HEAD + HEAD_LEN < max <= MAX_FILE && maxque < U32
    requires Run(Create(max, maxque), events, q) && Admits(EMPTY, events, maxque) && |events| < U64
    ensures Kept(q, After(EMPTY, events, maxque)) && Shape(q) && q.max == max && q.maxque == maxque
    ensures |After(EMPTY, events, maxque).items| <= |events| && AllRight(EMPTY, events, max, maxque)
  {
    hide Shape, Run, Admits, Kept, Ordinary, AllRight;
    CreateOrdinary(max, maxque);
    OrdinaryKept(Create(max, maxque), EMPTY);
    RunRefines(Create(max, maxque), EMPTY, events, q);
    KeptShape(q, After(EMPTY, events, maxque));
  }

  /** What a reopen takes for the put counter is what the last write tag holds. */
  lemma ReopenCounters(q: Queue, a: Abs, listing: seq<Names.Entry>, def: nat)
    requires Kept(q, a) && Shape(q) && a.pushed && q.w.index < Names.LIMIT && Names.Lists(listing, q.r.index, q.w.index)
    ensures var n := Reopen(Close(q), listing, def);
            n.Some? && n.value.getNum == q.getNum && (n.value.putNum == q.putNum <==> !a.stale)
  {
    hide Refines, Shape, Names.Lists, Tags.Line, LeadsTo, Flatten, EndsWith, Reopened, Reopen, Close, Stretch;
    ShapeRanges(q);
    var rpos, put: nat, wpos := 0, 0, q.w.pos;
    if Ordinary(q, a) {
      var v, log :| InvAt(q, a, v, log);
      InvParts(q, a, v, log);
      rpos, put := log.rpos, log.put;
    } else {
      var logged :| Low(q, a, logged);
      EndsNotEmpty(q, logged);
      ShapePositions(q);
      rpos, put := q.r.pos, logged;
    }
    RtagRecovered(q.rtags[q.r.index], q.max, q.getNum, rpos);
    WtagRecovered(q.wtags[q.w.index], q.max, put, q.w.pos, q.maxque, 0, def);
    ReopenReads(q, listing, def, rpos, q.w.pos, put);
    ReopenedFrame(q, rpos, q.w.pos, put);
  }

  lemma ShapePositions(q: Queue)
    requires Shape(q)
    ensures q.r.pos <= q.max && q.w.pos <= q.max <= MAX_FILE && q.getNum < U64 && q.maxque < U32
  {}

  /**
   After every run that accepted a message: the put counter survives a restart if and
   only if the counters were not folded after the last accepted message and the last
   restart. The get counter always survives.
   */
  lemma CountersSurviveExactly(max: nat, maxque: nat, events: seq<Event>, q: Queue, listing: seq<Names.Entry>)
    requires FILE_HEAD + HEAD_LEN < max <= MAX_FILE && maxque < U32
    requires Run(Create(max, maxque), events, q) && Admits(EMPTY, events, maxque) && |events| < U64 && Acceptances(events) != []
    requires q.w.index < Names.LIMIT && Names.Lists(listing, q.r.index, q.w.index)
    ensures Shape(q)
    ensures var n := Reopen(Close(q), listing, maxque);
            n.Some? && n.value.getNum == q.getNum && (n.value.putNum == q.putNum <==> !FoldPending(events, maxque))
  {
    hide Shape, Run, Admits, Kept, Ordinary, AllRight, Reopen, Close, Names.Lists, FoldPending, Acceptances;
    CreatedRun(max, maxque, events, q);
    PushedExactly(events, maxque);
    ReopenCounters(q, After(EMPTY, events, maxque), listing, maxque);
    if maxque > 0 {
      StaleMeansPending(events, max, maxque);
    } else {
      NeverStale(events);
      NeverPending(events);
    }
  }

  lemma {:induction false} PushedExactly(events: seq<Event>, maxque: nat)
    ensures After(EMPTY, events, maxque).pushed <==> Acceptances(events) != []
  {
    if events != [] { PushedExactly(events[..|events| - 1], maxque); }
  }

  lemma {:induction false} NeverStale(events: seq<Event>)
    ensures !After(EMPTY, events, 0).stale
  {
    if events != [] { NeverStale(events[..|events| - 1]); }
  }

  lemma NeverPending(events: seq<Event>)
    ensures !FoldPending(events, 0)
  {}

  // ---- a lost counter ----

  /** A restart that took the unfolded put counter for real. */
  ghost predicate LosesCounter(events: seq<Event>, k: nat, maxque: nat)
    requires k < |events|
  {
    events[k].op.Restart? && FoldPending(events[..k], maxque)
  }

  ghost predicate LostSomewhere(events: seq<Event>, maxque: nat) {
    exists k | 0 <= k < |events| :: LosesCounter(events, k, maxque)
  }

  lemma LostStep(events: seq<Event>, maxque: nat)
    requires events != []
    ensures var n := |events| - 1;
            LostSomewhere(events, maxque) <==> LostSomewhere(events[..n], maxque) || LosesCounter(events, n, maxque)
  {
    var n := |events| - 1;
    var front := events[..n];
    assert forall k | 0 <= k < n :: front[..k] == events[..k] && front[k] == events[k];
    hide FoldPending;
    if LostSomewhere(events, maxque) {
      var k :| 0 <= k < |events| && LosesCounter(events, k, maxque);
      if k < n { assert LosesCounter(front, k, maxque); }
    }
    if LostSomewhere(front, maxque) {
      var k :| 0 <= k < |front| && LosesCounter(front, k, maxque);
      assert LosesCounter(events, k, maxque);
    }
  }

  /** The counter is lost exactly when some restart met a pending fold; nothing brings it back. */
  lemma {:induction false} LostExactly(events: seq<Event>, max: nat, maxque: nat)
    requires AllRight(EMPTY, events, max, maxque) && maxque > 0
    ensures After(EMPTY, events, maxque).lost <==> LostSomewhere(events, maxque)
  {
    hide Right, FoldPending;
    if events != [] {
      var n := |events| - 1;
      var front := events[..n];
      assert forall k | 0 <= k < n :: front[..k] == events[..k] && front[k] == events[k];
      LostExactly(front, max, maxque);
      StaleMeansPending(front, max, maxque);
      LostStep(events, maxque);
    }
  }

  /**
   In every run a message of legal length is refused if and only if as many messages as
   the limit are unread, or some earlier restart lost the counter: from then on every one.
   */
  lemma RefusedExactly(max: nat, maxque: nat, events: seq<Event>, q: Queue, j: nat)
    requires FILE_HEAD + HEAD_LEN < max <= MAX_FILE && 0 < maxque < U32
    requires Run(Create(max, maxque), events, q) && Admits(EMPTY, events, maxque) && |events| < U64
    requires j < |events| && events[j].op.Send? && Legal(events[j].op.m, max)
    ensures var past := events[..j];
            events[j].out == Refused <==> |Acceptances(past)| == |Deliveries(past)| + maxque || LostSomewhere(past, maxque)
  {
    hide Shape, Run, Admits, Kept, Ordinary, Next, LostSomewhere, Acceptances, Deliveries;
    CreatedRun(max, maxque, events, q);
    var past := events[..j];
    assert forall k | 0 <= k < j :: past[..k] == events[..k] && past[k] == events[k];
    NothingLost(EMPTY, past, max, maxque);
    LostExactly(past, max, maxque);
    assert Right(After(EMPTY, past, maxque), events[j], max, maxque);
  }

  lemma RunStep(q0: Queue, events: seq<Event>, mid: Queue, e: Event, q: Queue)
    requires Run(q0, events, mid) && Shape(mid) && Steps(mid, e, q)
    ensures Run(q0, events + [e], q)
  {
    hide Shape, Steps;
    assert (events + [e])[..|events|] == events;
  }

  lemma NoStepYet(q: Queue)
    ensures Run(q, [], q)
  {}

  /** One message through a queue of limit one, and a restart. */
  function LosingRun(m: Message, listing: seq<Names.Entry>): seq<Event> {
    [Event(Send(m, true), Accepted)] + [Event(Receive, Delivered(m))] + [Event(Restart(listing), Restarted)]
  }

  /** The first message goes in and out, in the first segment. */
  lemma FirstRound(max: nat, m: Message) returns (q1: Queue, q2: Queue)
    requires FILE_HEAD + HEAD_LEN < max <= MAX_FILE && Legal(m, max)
    ensures Shape(Create(max, 1)) && Shape(q1) && Shape(q2)
    ensures Steps(Create(max, 1), Event(Send(m, true), Accepted), q1) && Steps(q1, Event(Receive, Delivered(m)), q2)
    ensures Inv(q2, AfterPop(AfterPush(EMPTY, m), 1)) && q2.r.index == 1 && q2.w.index == 1 && q2.maxque == 1
  {
    hide Shape, Inv, Create, Push, Pop;
    var q0 := Create(max, 1);
    CreateOrdinary(max, 1);
    FreshPlaces(max, 1);
    PushInv(q0, EMPTY, m, true);
    FreshSteps(max, 1, m);
    FreshPush(q0, m, true);
    q1 := Push(q0, m, true).q;
    InvGivesShape(q1, AfterPush(EMPTY, m));
    FirstStays(q0, m);
    PopInv(q1, AfterPush(EMPTY, m));
    q2 := Pop(q1).q;
    InvGivesShape(q2, AfterPop(AfterPush(EMPTY, m), 1));
    PopStays(q1);
  }

  /** This is a run for every message and every listing of the directory; it ends with nothing unread and a lost counter. */
  lemma CountersLost(max: nat, m: Message, listing: seq<Names.Entry>) returns (q: Queue)
    requires FILE_HEAD + HEAD_LEN < max <= MAX_FILE && Legal(m, max) && Names.Lists(listing, 1, 1)
    ensures Run(Create(max, 1), LosingRun(m, listing), q)
    ensures LostSomewhere(LosingRun(m, listing), 1) && Deliveries(LosingRun(m, listing)) == Acceptances(LosingRun(m, listing)) == [m]
    ensures q.putNum - q.getNum == 1 && q.maxque == 1
  {
    hide Shape, Inv, Create, Push, Pop, Reopen, Close, Names.Lists, Run, LostSomewhere, Acceptances, Deliveries;
    var q0 := Create(max, 1);
    var q1, q2 := FirstRound(max, m);
    var a := AfterPop(AfterPush(EMPTY, m), 1);
    ShapeOwns(q2);
    ReopenInv(q2, a, listing, 1);
    q := Reopen(Close(q2), listing, 1).value;
    var e1, e2, e3 := Event(Send(m, true), Accepted), Event(Receive, Delivered(m)), Event(Restart(listing), Restarted);
    NoStepYet(q0);
    RunTwo(q0, [], q0, e1, q1, e2, q2);
    assert [] + [e1] + [e2] == [e1] + [e2];
    RunStep(q0, [e1] + [e2], q2, e3, q);
    LosingEnds(m, listing);
    LostCount(q, AfterReopen(a));
  }

  lemma FirstStays(q: Queue, m: Message)
    requires Shape(q) && Sendable(q, m) && !NeedsRoll(q, m)
    ensures var n := Push(q, m, true).q; n.r.index == q.r.index && n.w.index == q.w.index
  {
    hide IsFull, Overwrite, Encode;
  }

  lemma PopStays(q: Queue)
    requires Shape(q) && q.r.index == q.w.index
    ensures var n := Pop(q).q; n.r.index == q.r.index && n.w.index == q.w.index
  {
    hide Files, Owns, GetData;
    GetIsSafe(q);
  }

  lemma LosingEnds(m: Message, listing: seq<Names.Entry>)
    ensures var e := LosingRun(m, listing);
            Deliveries(e) == Acceptances(e) == [m] && LostSomewhere(e, 1)
  {
    hide Acceptances, Deliveries;
    var e := LosingRun(m, listing);
    var past := [e[0]] + [e[1]];
    assert e == past + [e[2]] && [] + [e[0]] == [e[0]] && e[..2] == past && past[..2] == past;
    Nothing();
    Snoc([], e[0]);
    Snoc([e[0]], e[1]);
    Snoc(past, e[2]);
    assert Folds(past, 1, 1) && NothingSettles(past, 2);
    assert LosesCounter(e, 2, 1);
  }

  lemma LostCount(q: Queue, a: Abs)
    requires Inv(q, a) && q.maxque == 1 && a.lost && a.items == []
    ensures q.putNum - q.getNum == 1
  {
    hide Refines, ReadLogged, WriteLogged, Flatten;
  }

  // ---- a restart before the first message ----

  /** A message that takes the fewest bytes, and one that takes the most. */
  const TINY := Message(0, [0])

  function Big(max: nat): Message
    requires max > FILE_HEAD + HEAD_LEN
  {
    Message(0, seq(max - FILE_HEAD - HEAD_LEN, i => 1))
  }

  lemma RunTwo(q0: Queue, events: seq<Event>, q: Queue, d: Event, mid: Queue, e: Event, n: Queue)
    requires Run(q0, events, q) && Shape(q) && Steps(q, d, mid) && Shape(mid) && Steps(mid, e, n)
    ensures Run(q0, events + [d] + [e], n)
  {
    hide Run, Shape, Steps;
    RunStep(q0, events, q, d, mid);
    RunStep(q0, events + [d], mid, e, n);
  }

  lemma Snoc(events: seq<Event>, e: Event)
    ensures Acceptances(events + [e]) == Acceptances(events) + if Accepts(e) then [e.op.m] else []
    ensures Deliveries(events + [e]) == Deliveries(events) + if Delivers(e) then [e.out.m] else []
  {
    assert (events + [e])[..|events|] == events;
  }

  /** The queue after an early restart, with nothing unread and its cursors at `pos`. */
  ghost predicate Between(q: Queue, a: Abs, logged: nat, pos: nat) {
    Low(q, a, logged) && a.items == [] && !a.lost && q.r.pos == q.w.pos == pos
  }

  /** A tiny message goes in and out while there is room. */
  lemma Round(q: Queue, a: Abs, logged: nat, pos: nat) returns (mid: Queue, n: Queue)
    requires Between(q, a, logged, pos) && q.maxque != 1 && pos + 13 <= q.max
    ensures Shape(q) && Shape(mid) && Steps(q, Event(Send(TINY, true), Accepted), mid)
    ensures Steps(mid, Event(Receive, Delivered(TINY)), n)
    ensures Between(n, AfterPop(AfterPush(a, TINY), q.maxque), (q.putNum + 1) % U64, pos + 13) && n.max == q.max && n.maxque == q.maxque
  {
    hide Shape, Stretch, LogsAt, Push, Pop, Counted;
    LowPlaces(q, a, logged);
    ShapeRoom(q);
    ShapeRanges(q);
    FullExactly(q, a, logged);
    LowPush(q, a, logged, TINY, true);
    mid := Push(q, TINY, true).q;
    LowPop(mid, AfterPush(a, TINY), (q.putNum + 1) % U64);
    n := Pop(mid).q;
  }

  lemma ShapeRoom(q: Queue)
    requires Shape(q)
    ensures q.max > FILE_HEAD + HEAD_LEN && q.max <= MAX_FILE
  {}

  lemma {:induction false} Rounds(q0: Queue, k: nat) returns (events: seq<Event>, q: Queue, a: Abs, logged: nat)
    requires Between(q0, EMPTY, 0, 0) && q0.maxque != 1 && k <= 9
    ensures Run(q0, events, q) && |events| == 2 * k && Deliveries(events) == Acceptances(events) && |Acceptances(events)| == k
    ensures Between(q, a, logged, 13 * k) && q.max == q0.max && q.maxque == q0.maxque
  {
    hide Run, Between, Steps, Acceptances, Deliveries;
    if k == 0 {
      events, q, a, logged := [], q0, EMPTY, 0;
      NoStepYet(q0);
      Nothing();
    } else {
      var before, p, b, l := Rounds(q0, k - 1);
      BetweenRoom(p, b, l, 13 * (k - 1));
      var mid, n := Round(p, b, l, 13 * (k - 1));
      var d, e := Event(Send(TINY, true), Accepted), Event(Receive, Delivered(TINY));
      RunTwo(q0, before, p, d, mid, e, n);
      Snoc(before, d);
      Snoc(before + [d], e);
      events, q, a, logged := before + [d] + [e], n, AfterPop(AfterPush(b, TINY), p.maxque), (p.putNum + 1) % U64;
    }
  }

  lemma Nothing()
    ensures Acceptances([]) == [] && Deliveries([]) == []
  {}

  lemma BetweenRoom(q: Queue, a: Abs, logged: nat, pos: nat)
    requires Between(q, a, logged, pos)
    ensures Shape(q) && q.max > FILE_HEAD + HEAD_LEN
  {
    hide Owns, Files, Stretch, LogsAt, Counted;
  }

  /** The last two bytes of a tiny frame cannot begin a message. */
  lemma TinyTail()
    ensures |Encode(TINY)| == 13 && Encode(TINY)[11] == 0 && Encode(TINY)[12] == 0
  {
    hide Crc16.Crc;
  }

  lemma TinyStretch(file: seq<byte>)
    requires Stretch(file, 117, 130, [TINY])
    ensures NoMagic(file, FILE_HEAD, |file|)
  {
    hide Encode;
    TinyTail();
    assert [TINY][1..] == [] && Frames([TINY]) == Encode(TINY) + Frames([]);
    assert file[128] == file[117..130][11] && file[129] == file[117..130][12];
  }

  /** A roll while the tiny message in the head is unread: the next get skips it. */
  lemma RollLoses(q: Queue, a: Abs, logged: nat)
    requires Low(q, a, logged) && a.items == [TINY] && !a.lost && q.maxque != 1 && q.r.pos == 117 && q.w.pos == 130
    ensures q.max > FILE_HEAD + HEAD_LEN && Shape(q)
    ensures var big := Big(q.max);
            && Sendable(q, big)
            && var p := Push(q, big, true);
            p.code == PushOk && Shape(p.q) && Pop(p.q).msg == Some(big)
  {
    hide Shape, LogsAt, Counted, NoMagic, PutData, Refines, GetData, Flatten, Tags.Line, CountRead;
    LowPlaces(q, a, logged);
    ShapeRoom(q);
    ShapeRanges(q);
    var big := Big(q.max);
    ShapeFile(q);
    TinyStretch(q.files[q.w.index]);
    RollForgets(q, big);
    FullExactly(q, a, logged);
    PushNotFull(q, a, logged);
    PushCounted(q.putNum, q.getNum, q.maxque, a, logged, big);
    PutFrame(q, big, true);
    PutKeepsShape(q, big, true);
    var n, v := PutData(q, big, true).q, View([[], [big]], q.w.pos);
    ShapeRanges(n);
    LogWriteShape(n);
    LogWriteRefines(n, v);
    var k := LogWrite(n);
    SomethingToGet(k.putNum, k.getNum, k.maxque, AfterPush(a, big), (q.putNum + 1) % U64);
    GetRefines(k, v);
  }

  lemma ShapeFile(q: Queue)
    requires Shape(q)
    ensures q.w.index in q.files && |q.files[q.w.index]| == q.max
  {}

  /** A run from an early restart that delivers out of order: a message is gone. */
  lemma HeadLost(q0: Queue) returns (events: seq<Event>, q: Queue)
    requires Between(q0, EMPTY, 0, 0) && q0.maxque != 1
    ensures Run(q0, events, q) && |events| == 21 && !(Deliveries(events) <= Acceptances(events))
  {
    hide Run, Shape, Stretch, LogsAt, Push, Pop, Counted, Acceptances, Deliveries;
    var before, p, a, logged := Rounds(q0, 9);
    LowPlaces(p, a, logged);
    ShapeRoom(p);
    ShapeRanges(p);
    FullExactly(p, a, logged);
    LowPush(p, a, logged, TINY, true);
    var q1, a1 := Push(p, TINY, true).q, AfterPush(a, TINY);
    assert a1.items == [TINY];
    RollLoses(q1, a1, (p.putNum + 1) % U64);
    var big := Big(q1.max);
    var q2 := Push(q1, big, true).q;
    q := Pop(q2).q;
    var c, d, e := Event(Send(TINY, true), Accepted), Event(Send(big, true), Accepted), Event(Receive, Delivered(big));
    RunTwo(q0, before, p, c, q1, d, q2);
    RunStep(q0, before + [c] + [d], q2, e, q);
    Snoc(before, c);
    Snoc(before + [c], d);
    Snoc(before + [c] + [d], e);
    events := before + [c] + [d] + [e];
    assert big.body[0] != TINY.body[0];
    assert Deliveries(events)[9] == big && Acceptances(events)[9] == TINY;
  }

  /** Every run from `q` of fewer than `limit` events delivers `items` and what it accepts, in order. */
  ghost predicate KeepsOrder(q: Queue, items: seq<Message>, limit: nat) {
    forall events, n | Run(q, events, n) && |events| < limit :: Deliveries(events) <= items + Acceptances(events)
  }

  const MANY: nat := U64 / 2

  lemma KeptKeepsOrder(q: Queue, a: Abs)
    requires Kept(q, a) && (a.pushed || q.maxque == 1) && |a.items| < MANY
    ensures KeepsOrder(q, a.items, MANY)
  {
    hide Kept, Run, AllRight, Acceptances, Deliveries;
    forall events, n | Run(q, events, n) && |events| < MANY ensures Deliveries(events) <= a.items + Acceptances(events) {
      if a.pushed { PushedStays(a, events, q.maxque); }
      RunRefines(q, a, events, n);
      NothingLost(a, events, q.max, q.maxque);
    }
  }

  lemma PushedStays(a: Abs, events: seq<Event>, maxque: nat)
    requires a.pushed
    ensures NoEarlyRestart(a, events, maxque)
  {
    forall k | 0 <= k < |events| ensures After(a, events[..k], maxque).pushed { PushedOnce(a, events[..k], maxque); }
  }

  lemma {:induction false} PushedOnce(a: Abs, events: seq<Event>, maxque: nat)
    requires a.pushed
    ensures After(a, events, maxque).pushed
  {
    if events != [] { PushedOnce(a, events[..|events| - 1], maxque); }
  }

  /**
   After any run, a restart keeps the order of everything that follows if and only if a
   message had been accepted before it, or the limit of the queue is one. Otherwise the
   first messages lie in the file head, and the first roll writes over them.
   */
  lemma RestartKeepsOrderExactly(max: nat, maxque: nat, events: seq<Event>, q: Queue, listing: seq<Names.Entry>)
    requires FILE_HEAD + HEAD_LEN < max <= MAX_FILE && maxque < U32
    requires Run(Create(max, maxque), events, q) && NoEarlyRestart(EMPTY, events, maxque) && |events| < MANY
    requires q.w.index < Names.LIMIT && Names.Lists(listing, q.r.index, q.w.index)
    ensures Shape(q)
    ensures var n := Reopen(Close(q), listing, maxque);
            && n.Some?
            && (KeepsOrder(n.value, After(EMPTY, events, maxque).items, MANY) <==> Acceptances(events) != [] || maxque == 1)
  {
    hide Shape, Run, NoEarlyRestart, AllRight, Reopen, Close, Names.Lists, KeepsOrder, Acceptances, Inv, Low, Create;
    CreatedRun(max, maxque, events, q);
    var a := After(EMPTY, events, maxque);
    PushedExactly(events, maxque);
    NoEarlyMeansOrdinary(max, maxque, events, q);
    ShapeOwns(q);
    if a.pushed {
      ReopenInv(q, a, listing, maxque);
    } else {
      FreshPlaces(max, maxque);
      EarlyReopen(max, maxque, listing, maxque);
    }
    var n := Reopen(Close(q), listing, maxque).value;
    if a.pushed || maxque == 1 {
      OrdinaryRestart(q, a, listing, n);
      KeptKeepsOrder(n, AfterReopen(a));
    } else {
      EarlyLoses(n);
    }
  }

  lemma EarlyLoses(q: Queue)
    requires Low(q, EMPTY, 0) && q.r.pos == 0 && q.w.pos == 0 && q.maxque != 1
    ensures !KeepsOrder(q, [], MANY)
  {
    hide Low, Run, Acceptances, Deliveries;
    var events, n := HeadLost(q);
    assert [] + Acceptances(events) == Acceptances(events);
  }

  lemma NoEarlyMeansOrdinary(max: nat, maxque: nat, events: seq<Event>, q: Queue)
    requires FILE_HEAD + HEAD_LEN < max <= MAX_FILE && maxque < U32
    requires Run(Create(max, maxque), events, q) && NoEarlyRestart(EMPTY, events, maxque) && |events| < U64
    ensures Ordinary(q, After(EMPTY, events, maxque))
  {
    hide Shape, Run, NoEarlyRestart, Kept, Ordinary, AllRight, Create;
    CreateOrdinary(max, maxque);
    OrdinaryKept(Create(max, maxque), EMPTY);
    CreatedSizes(max, maxque);
    RunRefines(Create(max, maxque), EMPTY, events, q);
  }

  lemma CreatedSizes(max: nat, maxque: nat)
    requires FILE_HEAD + HEAD_LEN < max <= MAX_FILE
    ensures Create(max, maxque).max == max && Create(max, maxque).maxque == maxque
  {}

  // ---- the same loss as a run of a created queue ----

  lemma {:induction false} RunAfter(q0: Queue, e: Event, q1: Queue, events: seq<Event>, q: Queue)
    requires Shape(q0) && Steps(q0, e, q1) && Run(q1, events, q)
    ensures Run(q0, [e] + events, q)
    decreases |events|
  {
    hide Shape, Steps;
    NoStepYet(q0);
    RunStep(q0, [], q0, e, q1);
    assert [] + [e] == [e];
    if events == [] {
      assert [e] + [] == [e];
    } else {
      var n := |events| - 1;
      var mid :| Shape(mid) && Run(q1, events[..n], mid) && Steps(mid, events[n], q);
      RunAfter(q0, e, q1, events[..n], mid);
      RunStep(q0, [e] + events[..n], mid, events[n], q);
      assert [e] + events[..n] + [events[n]] == [e] + events;
    }
  }

  lemma {:induction false} SilentFirst(e: Event, events: seq<Event>)
    requires !Accepts(e) && !Delivers(e)
    ensures Acceptances([e] + events) == Acceptances(events) && Deliveries([e] + events) == Deliveries(events)
    decreases |events|
  {
    hide Acceptances, Deliveries;
    Nothing();
    if events == [] {
      Snoc([], e);
      assert [] + [e] == [e] + [];
    } else {
      var n := |events| - 1;
      SilentFirst(e, events[..n]);
      Snoc(events[..n], events[n]);
      Snoc([e] + events[..n], events[n]);
      assert [e] + events[..n] + [events[n]] == [e] + events && events[..n] + [events[n]] == events;
    }
  }

  /** A created queue that is restarted first, then used: what it delivers is not what it accepted. */
  lemma EarlyRestartLoses(max: nat, maxque: nat, listing: seq<Names.Entry>) returns (events: seq<Event>, q: Queue)
    requires FILE_HEAD + HEAD_LEN < max <= MAX_FILE && maxque < U32 && maxque != 1 && Names.Lists(listing, 1, 1)
    ensures Run(Create(max, maxque), events, q) && !Admits(EMPTY, events, maxque)
    ensures |events| == 22 && !(Deliveries(events) <= Acceptances(events))
  {
    hide Shape, Run, Reopen, Close, Names.Lists, Low, Acceptances, Deliveries, Create;
    var q0 := Create(max, maxque);
    EarlyReopen(max, maxque, listing, maxque);
    CreatedSizes(max, maxque);
    FreshPlaces(max, maxque);
    ShapeOwns(q0);
    var q1 := Reopen(Close(q0), listing, maxque).value;
    var rest, n := HeadLost(q1);
    var e := Event(Restart(listing), Restarted);
    RunAfter(q0, e, q1, rest, n);
    SilentFirst(e, rest);
    events, q := [e] + rest, n;
    assert events[0] == e && events[..0] == [];
  }
}
