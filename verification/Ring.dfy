/**
 The ring of tasks: producers serialised by one lock, consumers by another, one of
 each at work at the same time. Every shared read and write, and every copied
 word of a slot, is a step of its own, and steps of all threads interleave.
 */
module Ring {
  /** Where a thread is inside supex_task_push. */
  datatype Pusher =
    | PIdle(ok: bool)
    | PWant(item: seq<int>)
    | PCheck(item: seq<int>)
    | PCopy(item: seq<int>, next: nat, j: nat)
    | PPublish(item: seq<int>, next: nat)
    | PUnlock(ok: bool)

  /** Where a thread is inside supex_task_pull. */
  datatype Puller =
    | GIdle(ok: bool, task: seq<int>)
    | GWant
    | GCheck
    | GCopy(task: seq<int>)
    | GAdvance(task: seq<int>)
    | GUnlock(ok: bool, task: seq<int>)

  /** The shared list, the threads, and the history of what was published and taken. */
  datatype State = State(
    max: nat, tsz: nat, slots: seq<seq<int>>, head: nat, tail: nat, wLock: bool, rLock: bool,
    pushers: map<nat, Pusher>, pullers: map<nat, Puller>,
    pushed: seq<seq<int>>, pulled: seq<seq<int>>)

  /** supex_task_init, with all threads outside. */
  function Init(max: nat, tsz: nat, pushers: set<nat>, pullers: set<nat>): State {
    State(max, tsz, seq(max, i => seq(tsz, j => 0)), 0, 0, false, false,
          map t | t in pushers :: PIdle(false), map t | t in pullers :: GIdle(false, []), [], [])
  }

  // ---- steps ----

  datatype Action = BeginPush(t: nat, item: seq<int>) | StepPush(t: nat) | BeginPull(t: nat) | StepPull(t: nat)

  function SetPusher(s: State, t: nat, p: Pusher): State {
    s.(pushers := s.pushers[t := p])
  }

  function SetPuller(s: State, t: nat, p: Puller): State {
    s.(pullers := s.pullers[t := p])
  }

  predicate InRange(s: State) {
    s.max > 0 && s.head < |s.slots| && s.tail < |s.slots|
  }

  /** The next step of thread `t` in supex_task_push; a thread that cannot get the lock stays where it is. */
  function Push(s: State, t: nat): State
    requires t in s.pushers && InRange(s)
  {
    match s.pushers[t]
    case PIdle(_) => s
    case PWant(item) => if s.wLock then s else SetPusher(s.(wLock := true), t, PCheck(item))
    case PCheck(item) =>
      var next := (s.tail + 1) % s.max;
      SetPusher(s, t, if s.head != next then PCopy(item, next, 0) else PUnlock(false))
    case PCopy(item, next, j) =>
      if j < |item| && j < |s.slots[s.tail]| then
        SetPusher(s.(slots := s.slots[s.tail := s.slots[s.tail][j := item[j]]]), t, PCopy(item, next, j + 1))
      else SetPusher(s, t, PPublish(item, next))
    case PPublish(item, next) => SetPusher(s.(tail := next, pushed := s.pushed + [item]), t, PUnlock(true))
    case PUnlock(ok) => SetPusher(s.(wLock := false), t, PIdle(ok))
  }

  /** The next step of thread `t` in supex_task_pull. */
  function Pull(s: State, t: nat): State
    requires t in s.pullers && InRange(s)
  {
    match s.pullers[t]
    case GIdle(_, _) => s
    case GWant => if s.rLock then s else SetPuller(s.(rLock := true), t, GCheck)
    case GCheck => SetPuller(s, t, if s.head != s.tail then GCopy([]) else GUnlock(false, []))
    case GCopy(task) =>
      if |task| < |s.slots[s.head]| then SetPuller(s, t, GCopy(task + [s.slots[s.head][|task|]]))
      else SetPuller(s, t, GAdvance(task))
    case GAdvance(task) =>
      SetPuller(s.(head := (s.head + 1) % s.max, pulled := s.pulled + [task]), t, GUnlock(true, task))
    case GUnlock(ok, task) => SetPuller(s.(rLock := false), t, GIdle(ok, task))
  }

  /** An action that is not possible changes nothing. */
  function Apply(s: State, a: Action): State
    requires InRange(s)
  {
    match a
    case BeginPush(t, item) =>
      if t in s.pushers && s.pushers[t].PIdle? && |item| == s.tsz then SetPusher(s, t, PWant(item)) else s
    case StepPush(t) => if t in s.pushers then Push(s, t) else s
    case BeginPull(t) => if t in s.pullers && s.pullers[t].GIdle? then SetPuller(s, t, GWant) else s
    case StepPull(t) => if t in s.pullers then Pull(s, t) else s
  }

  // ---- the invariant ----

  function Wrap(x: nat, max: nat): nat {
    if x < max then x else x - max
  }

  lemma ModIsWrap(x: nat, max: nat)
    requires 0 < max && x < max
    ensures (x + 1) % max == Wrap(x + 1, max)
  {
    if x + 1 == max {
      assert max % max == 0;
    } else {
      assert (x + 1) % max == x + 1;
    }
  }

  predicate Pushing(p: Pusher) {
    p.PCheck? || p.PCopy? || p.PPublish? || p.PUnlock?
  }

  predicate Pulling(p: Puller) {
    p.GCheck? || p.GCopy? || p.GAdvance? || p.GUnlock?
  }

  /** A producer past its full-test has a free slot besides the one it fills, and has filled `j` words of it. */
  predicate PusherOk(s: State, p: Pusher)
    requires s.tail < |s.slots|
  {
    match p
    case PWant(item) => |item| == s.tsz
    case PCheck(item) => |item| == s.tsz
    case PCopy(item, next, j) =>
      && |item| == s.tsz && j <= s.tsz && next == Wrap(s.tail + 1, s.max)
      && |s.pushed| - |s.pulled| + 2 <= s.max
      && |s.slots[s.tail]| == s.tsz && s.slots[s.tail][..j] == item[..j]
    case PPublish(item, next) =>
      && |item| == s.tsz && next == Wrap(s.tail + 1, s.max)
      && |s.pushed| - |s.pulled| + 2 <= s.max && s.slots[s.tail] == item
    case _ => true
  }

  /** A consumer past its empty-test is copying the oldest item. */
  predicate PullerOk(s: State, p: Puller) {
    match p
    case GCopy(task) => |s.pulled| < |s.pushed| && |task| <= s.tsz && |s.pushed[|s.pulled|]| == s.tsz && task == s.pushed[|s.pulled|][..|task|]
    case GAdvance(task) => |s.pulled| < |s.pushed| && task == s.pushed[|s.pulled|]
    case _ => true
  }

  /** The unread items sit in order in the slots from head on. */
  predicate Layout(s: State) {
    && s.max > 0 && |s.slots| == s.max && (forall i | 0 <= i < s.max :: |s.slots[i]| == s.tsz)
    && s.head < s.max && s.tail < s.max
    && s.pulled <= s.pushed && |s.pushed| - |s.pulled| < s.max
    && s.tail == Wrap(s.head + (|s.pushed| - |s.pulled|), s.max)
    && forall d | 0 <= d < |s.pushed| - |s.pulled| :: Stored(s, d)
  }

  /** The `d`-th unread item is in its slot. */
  predicate Stored(s: State, d: nat)
    requires s.head < s.max == |s.slots| && d < s.max && |s.pulled| + d < |s.pushed|
  {
    s.slots[Wrap(s.head + d, s.max)] == s.pushed[|s.pulled| + d]
  }

  /** Each lock is held by the one thread that is inside. */
  predicate Locks(s: State) {
    && (forall t | t in s.pushers :: Pushing(s.pushers[t]) ==> s.wLock)
    && (forall t, u | t in s.pushers && u in s.pushers :: Pushing(s.pushers[t]) && Pushing(s.pushers[u]) ==> t == u)
    && (forall t | t in s.pullers :: Pulling(s.pullers[t]) ==> s.rLock)
    && (forall t, u | t in s.pullers && u in s.pullers :: Pulling(s.pullers[t]) && Pulling(s.pullers[u]) ==> t == u)
  }

  predicate Threads(s: State)
    requires s.tail < |s.slots|
  {
    && (forall t | t in s.pushers :: PusherOk(s, s.pushers[t]))
    && (forall t | t in s.pullers :: PullerOk(s, s.pullers[t]))
  }

  predicate Inv(s: State) {
    Layout(s) && Locks(s) && Threads(s)
  }

  // ---- every step keeps it ----

  lemma InitInv(max: nat, tsz: nat, pushers: set<nat>, pullers: set<nat>)
    requires max > 0
    ensures Inv(Init(max, tsz, pushers, pullers))
  {}

  lemma SlotsApart(head: nat, d: nat, e: nat, max: nat)
    requires head < max && d < e < max
    ensures Wrap(head + d, max) != Wrap(head + e, max)
  {}

  lemma CopyInKeepsLayout(s: State, t: nat)
    requires Inv(s) && t in s.pushers && s.pushers[t].PCopy? && s.pushers[t].j < s.tsz
    ensures Layout(Push(s, t))
  {
    assert PusherOk(s, s.pushers[t]);
    var n := Push(s, t);
    forall d | 0 <= d < |n.pushed| - |n.pulled| ensures Stored(n, d) {
      assert Stored(s, d);
      SlotsApart(s.head, d, |s.pushed| - |s.pulled|, s.max);
    }
  }

  lemma PublishKeepsLayout(s: State, t: nat)
    requires Inv(s) && t in s.pushers && s.pushers[t].PPublish?
    ensures Layout(Push(s, t))
  {
    assert PusherOk(s, s.pushers[t]);
    var n, k := Push(s, t), |s.pushed| - |s.pulled|;
    forall d | 0 <= d < |n.pushed| - |n.pulled| ensures Stored(n, d) {
      if d < k { assert Stored(s, d); }
    }
  }

  lemma AdvanceKeepsLayout(s: State, t: nat)
    requires Inv(s) && t in s.pullers && s.pullers[t].GAdvance?
    ensures Layout(Pull(s, t))
  {
    assert PullerOk(s, s.pullers[t]);
    ModIsWrap(s.head, s.max);
    var n := Pull(s, t);
    assert n.pulled == s.pushed[..|s.pulled| + 1];
    forall d | 0 <= d < |n.pushed| - |n.pulled| ensures Stored(n, d) {
      assert Stored(s, d + 1);
    }
  }

  /** What the other threads rely on stays true when one thread moves. */
  ghost predicate SameShared(s: State, n: State) {
    n.max == s.max && n.tsz == s.tsz && n.slots == s.slots && n.head == s.head && n.tail == s.tail && n.pushed == s.pushed && n.pulled == s.pulled
  }

  lemma PushKeepsLayout(s: State, t: nat)
    requires Inv(s) && t in s.pushers
    ensures Layout(Push(s, t))
  {
    hide Locks;
    match s.pushers[t]
    case PCopy(item, next, j) =>
      assert PusherOk(s, s.pushers[t]);
      if j < s.tsz { CopyInKeepsLayout(s, t); } else { SharedKeepsLayout(s, Push(s, t)); }
    case PPublish(item, next) => PublishKeepsLayout(s, t);
    case _ => SharedKeepsLayout(s, Push(s, t));
  }

  lemma SharedKeepsLayout(s: State, n: State)
    requires Layout(s) && SameShared(s, n)
    ensures Layout(n)
  {
    forall d | 0 <= d < |n.pushed| - |n.pulled| ensures Stored(n, d) { assert Stored(s, d); }
  }

  lemma PullKeepsLayout(s: State, t: nat)
    requires Inv(s) && t in s.pullers
    ensures Layout(Pull(s, t))
  {
    hide Locks, Threads;
    if s.pullers[t].GAdvance? {
      AdvanceKeepsLayout(s, t);
    } else {
      SharedKeepsLayout(s, Pull(s, t));
    }
  }

  lemma PushKeepsLocks(s: State, t: nat)
    requires InRange(s) && Inv(s) && t in s.pushers
    ensures Locks(Push(s, t))
  {
    hide Layout, Threads;
  }

  lemma PullKeepsLocks(s: State, t: nat)
    requires InRange(s) && Inv(s) && t in s.pullers
    ensures Locks(Pull(s, t))
  {
    hide Layout, Threads;
  }

  lemma CheckFindsRoom(s: State, t: nat)
    requires Inv(s) && t in s.pushers && s.pushers[t].PCheck?
    ensures PusherOk(Push(s, t), Push(s, t).pushers[t])
  {
    hide Locks;
    assert PusherOk(s, s.pushers[t]);
    ModIsWrap(s.tail, s.max);
  }

  lemma CopyInFills(s: State, t: nat)
    requires Inv(s) && t in s.pushers && s.pushers[t].PCopy?
    ensures PusherOk(Push(s, t), Push(s, t).pushers[t])
  {
    hide Locks;
    var p, slot := s.pushers[t], s.slots[s.tail];
    assert PusherOk(s, p);
    if p.j < s.tsz {
      assert slot[p.j := p.item[p.j]][..p.j + 1] == p.item[..p.j + 1];
    } else {
      assert slot[..p.j] == slot && p.item[..p.j] == p.item;
    }
  }

  lemma PusherMovesOn(s: State, t: nat)
    requires Inv(s) && t in s.pushers
    ensures Push(s, t).tail < |Push(s, t).slots| && PusherOk(Push(s, t), Push(s, t).pushers[t])
  {
    hide Locks, PusherOk;
    PushKeepsLayout(s, t);
    assert PusherOk(s, s.pushers[t]);
    match s.pushers[t]
    case PCheck(_) => CheckFindsRoom(s, t);
    case PCopy(_, _, _) => CopyInFills(s, t);
    case _ => PusherWaits(s, t);
  }

  lemma PusherWaits(s: State, t: nat)
    requires InRange(s) && t in s.pushers && PusherOk(s, s.pushers[t])
    requires !s.pushers[t].PCheck? && !s.pushers[t].PCopy? && Push(s, t).tail < |s.slots|
    ensures PusherOk(Push(s, t), Push(s, t).pushers[t])
  {}

  /** While one producer is inside, the others are outside and rely on nothing. */
  lemma OtherPushers(s: State, t: nat, u: nat)
    requires InRange(s) && Inv(s) && t in s.pushers && u in s.pushers && u != t
    requires Push(s, t).tail < |Push(s, t).slots|
    ensures PusherOk(Push(s, t), Push(s, t).pushers[u])
  {
    hide Layout;
    assert PusherOk(s, s.pushers[u]);
    assert Pushing(s.pushers[u]) && Pushing(s.pushers[t]) ==> t == u;
  }

  lemma PushLeavesPullers(s: State, t: nat, p: Puller)
    requires InRange(s) && t in s.pushers && PullerOk(s, p)
    ensures PullerOk(Push(s, t), p)
  {}

  lemma PushKeepsThreads(s: State, t: nat)
    requires InRange(s) && Inv(s) && t in s.pushers
    ensures Push(s, t).tail < |Push(s, t).slots| && Threads(Push(s, t))
  {
    hide Layout, Locks, PusherOk, PullerOk;
    PusherMovesOn(s, t);
    var n := Push(s, t);
    forall u | u in n.pushers ensures PusherOk(n, n.pushers[u]) {
      if u != t { OtherPushers(s, t, u); }
    }
    forall u | u in n.pullers ensures PullerOk(n, n.pullers[u]) {
      PushLeavesPullers(s, t, s.pullers[u]);
    }
  }

  /** A consumer that passes its empty-test has an item to copy. */
  lemma CheckFindsItem(s: State, t: nat)
    requires Inv(s) && t in s.pullers && s.pullers[t].GCheck?
    ensures PullerOk(Pull(s, t), Pull(s, t).pullers[t])
  {
    hide Locks, Threads, Stored;
    if |s.pulled| < |s.pushed| { FirstInSlot(s); }
  }

  lemma FirstInSlot(s: State)
    requires Layout(s) && |s.pulled| < |s.pushed|
    ensures s.slots[s.head] == s.pushed[|s.pulled|] && |s.pushed[|s.pulled|]| == s.tsz
  {
    assert Stored(s, 0);
  }

  lemma CopyOutReads(s: State, t: nat)
    requires Inv(s) && t in s.pullers && s.pullers[t].GCopy?
    ensures PullerOk(Pull(s, t), Pull(s, t).pullers[t])
  {
    hide Locks, Stored;
    var task := s.pullers[t].task;
    assert PullerOk(s, s.pullers[t]);
    FirstInSlot(s);
    var item := s.pushed[|s.pulled|];
    if |task| < s.tsz {
      assert task + [item[|task|]] == item[..|task| + 1];
    } else {
      assert item[..|task|] == item;
    }
  }

  lemma PullerMovesOn(s: State, t: nat)
    requires Inv(s) && t in s.pullers
    ensures PullerOk(Pull(s, t), Pull(s, t).pullers[t])
  {
    hide Locks, Threads, Stored;
    match s.pullers[t]
    case GCheck => CheckFindsItem(s, t);
    case GCopy(_) => CopyOutReads(s, t);
    case _ =>
  }

  lemma OtherPullers(s: State, t: nat, u: nat)
    requires InRange(s) && Inv(s) && t in s.pullers && u in s.pullers && u != t
    ensures PullerOk(Pull(s, t), Pull(s, t).pullers[u])
  {
    hide Layout;
    assert PullerOk(s, s.pullers[u]);
    assert Pulling(s.pullers[u]) && Pulling(s.pullers[t]) ==> t == u;
  }

  lemma PullLeavesPushers(s: State, t: nat, p: Pusher)
    requires InRange(s) && t in s.pullers && PusherOk(s, p)
    ensures PusherOk(Pull(s, t), p)
  {}

  lemma PullKeepsThreads(s: State, t: nat)
    requires InRange(s) && Inv(s) && t in s.pullers
    ensures Pull(s, t).tail < |Pull(s, t).slots| && Threads(Pull(s, t))
  {
    hide Layout, Locks, PusherOk, PullerOk;
    PullerMovesOn(s, t);
    var n := Pull(s, t);
    forall u | u in n.pullers ensures PullerOk(n, n.pullers[u]) {
      if u != t { OtherPullers(s, t, u); }
    }
    forall u | u in n.pushers ensures PusherOk(n, n.pushers[u]) {
      PullLeavesPushers(s, t, s.pushers[u]);
    }
  }

  lemma BeginKeepsInv(s: State, a: Action)
    requires InRange(s) && Inv(s) && (a.BeginPush? || a.BeginPull?)
    ensures Inv(Apply(s, a))
  {
    hide Layout, Threads;
    SharedKeepsLayout(s, Apply(s, a));
    BeginKeepsThreads(s, a);
  }

  lemma BeginKeepsThreads(s: State, a: Action)
    requires InRange(s) && Inv(s) && (a.BeginPush? || a.BeginPull?)
    ensures Threads(Apply(s, a))
  {
    hide Layout, Locks;
    var n := Apply(s, a);
    forall t | t in n.pushers ensures PusherOk(n, n.pushers[t]) { if t in s.pushers { assert PusherOk(s, s.pushers[t]); } }
    forall t | t in n.pullers ensures PullerOk(n, n.pullers[t]) { if t in s.pullers { assert PullerOk(s, s.pullers[t]); } }
  }

  lemma ApplyKeepsInv(s: State, a: Action)
    requires InRange(s) && Inv(s)
    ensures Inv(Apply(s, a))
  {
    hide Layout, Locks, Threads, Push, Pull;
    match a
    case BeginPush(_, _) => BeginKeepsInv(s, a);
    case BeginPull(_) => BeginKeepsInv(s, a);
    case StepPush(t) =>
      if t in s.pushers {
        PushKeepsLayout(s, t);
        PushKeepsLocks(s, t);
        PushKeepsThreads(s, t);
      }
    case StepPull(t) =>
      if t in s.pullers {
        PullKeepsLayout(s, t);
        PullKeepsLocks(s, t);
        PullKeepsThreads(s, t);
      }
  }

  // ---- every interleaving ----

  function Run(s: State, actions: seq<Action>): (n: State)
    requires Inv(s)
    ensures Inv(n)
  {
    if actions == [] then s
    else
      var m := Run(s, actions[..|actions| - 1]);
      InvInRange(m);
      ApplyKeepsInv(m, actions[|actions| - 1]);
      Apply(m, actions[|actions| - 1])
  }

  lemma InvInRange(s: State)
    requires Inv(s)
    ensures InRange(s)
  {}

  /**
   Ring safety, for any number of producers and consumers and any interleaving:
   what was taken is a prefix of what was published, in order and word for
   word; at most max - 1 items are unread; a slot is never filled while it is
   being copied out; each lock has at most one thread inside.
   */
  lemma RingSafety(max: nat, tsz: nat, pushers: set<nat>, pullers: set<nat>, actions: seq<Action>)
    requires max > 0
    ensures Inv(Init(max, tsz, pushers, pullers))
    ensures var s := Run(Init(max, tsz, pushers, pullers), actions);
            && s.pulled <= s.pushed
            && |s.pushed| - |s.pulled| <= s.max - 1
            && (forall t, u | t in s.pushers && u in s.pullers :: s.pushers[t].PCopy? && s.pullers[u].GCopy? ==> s.tail != s.head)
            && (forall t, u | t in s.pushers && u in s.pushers :: Pushing(s.pushers[t]) && Pushing(s.pushers[u]) ==> t == u)
            && (forall t, u | t in s.pullers && u in s.pullers :: Pulling(s.pullers[t]) && Pulling(s.pullers[u]) ==> t == u)
  {
    hide Run;
    InitInv(max, tsz, pushers, pullers);
    var s := Run(Init(max, tsz, pushers, pullers), actions);
    forall t, u | t in s.pushers && u in s.pullers && s.pushers[t].PCopy? && s.pullers[u].GCopy? ensures s.tail != s.head {
      assert PusherOk(s, s.pushers[t]) && PullerOk(s, s.pullers[u]);
    }
  }

  // ---- the ring is a queue ----

  function Contents(s: State): seq<seq<int>>
    requires |s.pulled| <= |s.pushed|
  {
    s.pushed[|s.pulled|..]
  }

  /** Every step leaves the queue alone, appends the item being pushed, or takes off the first item. */
  lemma StepsAreQueueSteps(s: State, a: Action)
    requires InRange(s) && Inv(s)
    ensures var n := Apply(s, a);
            && Inv(n)
            && (if a.StepPush? && a.t in s.pushers && s.pushers[a.t].PPublish? then Contents(n) == Contents(s) + [s.pushers[a.t].item]
                else if a.StepPull? && a.t in s.pullers && s.pullers[a.t].GAdvance? then
                  Contents(s) != [] && s.pullers[a.t].task == Contents(s)[0] && Contents(n) == Contents(s)[1..]
                else Contents(n) == Contents(s))
  {
    hide Layout, Locks, Threads;
    ApplyKeepsInv(s, a);
    SomePulled(s);
    if a.StepPush? && a.t in s.pushers && s.pushers[a.t].PPublish? {
      assert (s.pushed + [s.pushers[a.t].item])[|s.pulled|..] == Contents(s) + [s.pushers[a.t].item];
    } else if a.StepPull? && a.t in s.pullers && s.pullers[a.t].GAdvance? {
      AdvanceTakesFirst(s, a.t);
      assert s.pushed[|s.pulled| + 1..] == Contents(s)[1..];
    }
  }

  lemma SomePulled(s: State)
    requires Inv(s)
    ensures |s.pulled| <= |s.pushed|
  {}

  lemma AdvanceTakesFirst(s: State, t: nat)
    requires Inv(s) && t in s.pullers && s.pullers[t].GAdvance?
    ensures |s.pulled| < |s.pushed| && s.pullers[t].task == s.pushed[|s.pulled|]
  {
    hide Layout, Locks;
    assert PullerOk(s, s.pullers[t]);
  }

  /** A push is refused exactly when max - 1 items are unread, a pull exactly when none is. */
  lemma TestsAreExact(s: State, t: nat)
    requires InRange(s) && Inv(s)
    ensures t in s.pushers && s.pushers[t].PCheck? ==>
              (Push(s, t).pushers[t] == PUnlock(false) <==> |Contents(s)| == s.max - 1)
    ensures t in s.pullers && s.pullers[t].GCheck? ==>
              (Pull(s, t).pullers[t] == GUnlock(false, []) <==> Contents(s) == [])
  {
    hide Threads, Locks, Stored;
    ModIsWrap(s.tail, s.max);
  }
}
