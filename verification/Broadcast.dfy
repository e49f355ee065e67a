/**
 Broadcasting a task to the porter threads: callers claim a completion slot and
 push their job to every porter; the porter whose completion count is the last
 one frees the slot and wakes the caller. Callers and porters interleave step
 by step; the per-porter rings are bounded queues.
 */
module Broadcast {
  /** share_task_view; `owner` remembers which call claimed the slot last. */
  datatype View = View(inuse: bool, affect: int, finish: int, owner: nat)

  /** How far a call has got with one porter. */
  datatype Stage = Waiting | Queued | Taken | Ran | Counted

  datatype CallPc = Scanning(i: nat) | Claimed | Pushing | Spinning | Returned

  /** A call of swift_all_task_hit or swift_one_task_hit for the porters first .. first + count. */
  datatype Call = Call(
    first: nat, count: nat, synch: bool, pc: CallPc, slot: nat, k: nat, deal: bool,
    stage: seq<Stage>, runs: seq<nat>, zeros: nat)

  /** Where a porter is: pulling, or inside task_handle for a call. */
  datatype Porter = Idle | Got(c: nat) | Over(c: nat) | Adding(c: nat, max: int) | Resetting(c: nat) | Freeing(c: nat) | Dealing(c: nat)

  datatype State = State(n: nat, cap: nat, views: seq<View>, calls: seq<Call>, queues: seq<seq<nat>>, porters: seq<Porter>)

  function Init(n: nat, cap: nat, slots: nat): State {
    State(n, cap, seq(slots, i => View(false, 0, 0, 0)), [], seq(n, p => []), seq(n, p => Idle))
  }

  // ---- steps ----

  datatype Action = NewCall(first: nat, count: nat, synch: bool) | CallStep(c: nat) | PorterStep(p: nat)

  function NewRecord(n: nat, first: nat, count: nat, synch: bool): Call {
    Call(first, count, synch, Scanning(0), 0, 0, false, seq(n, p => Waiting), seq(n, p => 0), 0)
  }

  function SetCall(s: State, c: nat, call: Call): State
    requires c < |s.calls|
  {
    s.(calls := s.calls[c := call])
  }

  function SetView(s: State, i: nat, v: View): State
    requires i < |s.views|
  {
    s.(views := s.views[i := v])
  }

  function SetPorter(s: State, p: nat, x: Porter): State
    requires p < |s.porters|
  {
    s.(porters := s.porters[p := x])
  }

  function SetStage(call: Call, p: nat, x: Stage): Call
    requires p < |call.stage|
  {
    call.(stage := call.stage[p := x])
  }

  /** The next step of a caller: claim a free slot, set it up, push porter by porter, spin on the flag. */
  function StepCall(s: State, c: nat): State
    requires Shape(s) && c < |s.calls|
  {
    var call := s.calls[c];
    match call.pc
    case Scanning(i) =>
      if i >= |s.views| then SetCall(s, c, call.(pc := Scanning(0)))
      else if s.views[i].inuse then SetCall(s, c, call.(pc := Scanning(i + 1)))
      else SetCall(SetView(s, i, s.views[i].(inuse := true, owner := c)), c, call.(pc := Claimed, slot := i))
    case Claimed =>
      if call.slot >= |s.views| then s
      else SetCall(SetView(s, call.slot, s.views[call.slot].(finish := 0, affect := call.count)), c, call.(pc := Pushing))
    case Pushing =>
      var p := call.first + call.k;
      if call.k >= call.count then SetCall(s, c, call.(pc := Spinning))
      else if p >= s.n || |s.queues[p]| >= s.cap then s
      else SetCall(s.(queues := s.queues[p := s.queues[p] + [c]]), c, SetStage(call, p, Queued).(k := call.k + 1))
    case Spinning => if call.synch && !call.deal then s else SetCall(s, c, call.(pc := Returned))
    case Returned => s
  }

  /** The next step of a porter: pull a task, run it, and go through swift_task_over. */
  function StepPorter(s: State, p: nat): State
    requires Shape(s) && p < s.n
  {
    match s.porters[p]
    case Idle =>
      if s.queues[p] == [] || s.queues[p][0] >= |s.calls| then s
      else
        var c := s.queues[p][0];
        SetCall(SetPorter(s.(queues := s.queues[p := s.queues[p][1..]]), p, Got(c)), c, SetStage(s.calls[c], p, Taken))
    case Got(c) =>
      if c >= |s.calls| then s
      else
        var call := s.calls[c];
        SetCall(SetPorter(s, p, Over(c)), c, SetStage(call, p, Ran).(runs := call.runs[p := call.runs[p] + 1]))
    case Over(c) => if Slot(s, c) >= |s.views| then s else SetPorter(s, p, Adding(c, s.views[Slot(s, c)].affect))
    case Adding(c, max) =>
      if c >= |s.calls| || Slot(s, c) >= |s.views| then s
      else
        var v := s.views[Slot(s, c)];
        var last := max > 0 && v.finish == max - 1;
        SetCall(SetView(SetPorter(s, p, if last then Resetting(c) else Idle), Slot(s, c), v.(finish := v.finish + 1)),
                c, SetStage(s.calls[c], p, Counted))
    case Resetting(c) =>
      if Slot(s, c) >= |s.views| then s
      else SetView(SetPorter(s, p, Freeing(c)), Slot(s, c), s.views[Slot(s, c)].(finish := 0, affect := 0))
    case Freeing(c) =>
      if c >= |s.calls| || Slot(s, c) >= |s.views| then s
      else SetCall(SetView(SetPorter(s, p, Dealing(c)), Slot(s, c), s.views[Slot(s, c)].(inuse := false)),
                   c, s.calls[c].(zeros := s.calls[c].zeros + 1))
    case Dealing(c) =>
      if c >= |s.calls| then s
      else SetCall(SetPorter(s, p, Idle), c, if s.calls[c].synch then s.calls[c].(deal := true) else s.calls[c])
  }

  function Slot(s: State, c: nat): nat {
    if c < |s.calls| then s.calls[c].slot else |s.views|
  }

  function Apply(s: State, a: Action): State
    requires Shape(s)
  {
    match a
    case NewCall(first, count, synch) =>
      if 1 <= count && first + count <= s.n then s.(calls := s.calls + [NewRecord(s.n, first, count, synch)]) else s
    case CallStep(c) => if c < |s.calls| then StepCall(s, c) else s
    case PorterStep(p) => if p < s.n then StepPorter(s, p) else s
  }

  // ---- the invariant ----

  predicate Shape(s: State) {
    && |s.queues| == s.n && |s.porters| == s.n
    && forall c | 0 <= c < |s.calls| :: |s.calls[c].stage| == s.n && |s.calls[c].runs| == s.n
  }

  predicate Target(call: Call, p: nat) {
    call.first <= p < call.first + call.count
  }

  function Targets(call: Call): set<nat> {
    set p: nat | p < call.first + call.count && Target(call, p)
  }

  /** The porters whose completion has been counted. */
  function Finished(call: Call): set<nat> {
    set p: nat | p < |call.stage| && call.stage[p] == Counted
  }

  predicate Registered(call: Call) {
    !call.pc.Scanning?
  }

  /** The call holds its slot. */
  predicate Live(call: Call) {
    Registered(call) && call.zeros == 0
  }

  /** What a call knows about itself. */
  predicate CallOk(call: Call, n: nat, slots: nat) {
    && |call.stage| == n && |call.runs| == n
    && 1 <= call.count && call.first + call.count <= n && call.k <= call.count
    && (Registered(call) ==> call.slot < slots)
    && (call.pc.Scanning? || call.pc.Claimed? ==> call.k == 0)
    && (call.pc.Spinning? || call.pc.Returned? ==> call.k == call.count)
    && (forall p | 0 <= p < n :: call.stage[p] == Waiting <==> !(call.first <= p < call.first + call.k))
    && (forall p | 0 <= p < n :: call.runs[p] == if call.stage[p] == Ran || call.stage[p] == Counted then 1 else 0)
    && call.zeros <= 1
    && (call.zeros == 1 ==> Registered(call) && Finished(call) == Targets(call))
    && (call.deal ==> call.zeros == 1)
    && (call.pc.Returned? && call.synch ==> call.deal)
  }

  /** A live call owns its slot, and the slot counts the completions until the last one. */
  predicate Holds(s: State, c: nat)
    requires c < |s.calls|
  {
    var call := s.calls[c];
    Live(call) ==>
      && call.slot < |s.views|
      && var v := s.views[call.slot];
      && v.inuse && v.owner == c
      && (!call.pc.Claimed? && Finished(call) != Targets(call) ==> v.affect == call.count && v.finish == |Finished(call)|)
  }

  /** A slot in use belongs to a live call. */
  predicate ViewOk(s: State, i: nat)
    requires i < |s.views|
  {
    var v := s.views[i];
    v.inuse ==> v.owner < |s.calls| && Live(s.calls[v.owner]) && s.calls[v.owner].slot == i
  }

  predicate PorterOk(s: State, p: nat)
    requires p < |s.porters|
  {
    var x := s.porters[p];
    !x.Idle? ==>
      && x.c < |s.calls| && p < |s.calls[x.c].stage| && Target(s.calls[x.c], p) && Registered(s.calls[x.c]) && !s.calls[x.c].pc.Claimed?
      && var call := s.calls[x.c];
      && (x.Got? ==> call.stage[p] == Taken)
      && (x.Over? || x.Adding? ==> call.stage[p] == Ran)
      && (x.Adding? ==> x.max == call.count)
      && (x.Resetting? || x.Freeing? ==> call.zeros == 0 && Finished(call) == Targets(call))
      && (x.Dealing? ==> call.zeros == 1)
  }

  predicate QueueOk(s: State, p: nat)
    requires p < |s.queues|
  {
    && (forall i | 0 <= i < |s.queues[p]| ::
          var c := s.queues[p][i];
          c < |s.calls| && p < |s.calls[c].stage| && s.calls[c].stage[p] == Queued && Target(s.calls[c], p)
          && Registered(s.calls[c]) && !s.calls[c].pc.Claimed?)
    && (forall i, j | 0 <= i < j < |s.queues[p]| :: s.queues[p][i] != s.queues[p][j])
  }

  predicate IsLast(x: Porter, c: nat) {
    x == Resetting(c) || x == Freeing(c)
  }

  /** At most one porter is the last one of a call. */
  predicate OneLast(s: State) {
    forall p, q | 0 <= p < |s.porters| && 0 <= q < |s.porters| && (s.porters[p].Resetting? || s.porters[p].Freeing?) ::
      IsLast(s.porters[q], s.porters[p].c) ==> p == q
  }

  predicate Inv(s: State) {
    && Shape(s)
    && (forall c | 0 <= c < |s.calls| :: CallOk(s.calls[c], s.n, |s.views|) && Holds(s, c))
    && (forall i | 0 <= i < |s.views| :: ViewOk(s, i))
    && (forall p | 0 <= p < s.n :: PorterOk(s, p) && QueueOk(s, p))
    && OneLast(s)
  }

  lemma InitInv(n: nat, cap: nat, slots: nat)
    ensures Inv(Init(n, cap, slots))
  {}

  // ---- what one call's step means for the others ----

  /** Only the record of call `c` has changed, and it stays registered if it was. */
  ghost predicate OnlyCall(s: State, m: State, c: nat) {
    && m.n == s.n && m.cap == s.cap && |m.views| == |s.views| && |m.calls| == |s.calls| && c < |s.calls|
    && (forall d | 0 <= d < |s.calls| && d != c :: m.calls[d] == s.calls[d])
    && (Registered(s.calls[c]) ==> Registered(m.calls[c])) && (!s.calls[c].pc.Claimed? && Registered(s.calls[c]) ==> !m.calls[c].pc.Claimed?)
    && m.calls[c].first == s.calls[c].first && m.calls[c].count == s.calls[c].count
    && (Registered(s.calls[c]) ==> m.calls[c].slot == s.calls[c].slot)
  }

  /** The slots of other live calls are untouched. */
  ghost predicate OtherViews(s: State, m: State, c: nat) {
    |m.views| == |s.views| &&
    forall i | 0 <= i < |s.views| ::
      && (s.views[i].inuse && s.views[i].owner != c ==> m.views[i] == s.views[i])
      && (m.views[i].inuse && m.views[i].owner != c ==> m.views[i] == s.views[i])
  }

  lemma OtherHolds(s: State, m: State, c: nat, d: nat)
    requires Inv(s) && OnlyCall(s, m, c) && OtherViews(s, m, c) && d < |s.calls| && d != c
    ensures CallOk(m.calls[d], m.n, |m.views|) && Holds(m, d)
  {
    assert Holds(s, d);
  }

  /** Slots of other calls still belong to them. */
  lemma OtherViewOk(s: State, m: State, c: nat, i: nat)
    requires Inv(s) && OnlyCall(s, m, c) && OtherViews(s, m, c) && i < |s.views|
    requires m.views[i].inuse && m.views[i].owner != c
    ensures ViewOk(m, i)
  {
    assert ViewOk(s, i);
  }

  /** A porter that does not move, for a call whose stage at that porter does not change. */
  lemma OtherPorterOk(s: State, m: State, c: nat, p: nat)
    requires Inv(s) && OnlyCall(s, m, c) && p < s.n && Shape(m)
    requires m.porters[p] == s.porters[p] && m.calls[c].stage[p] == s.calls[c].stage[p]
    requires s.porters[p].Idle? || s.porters[p].c != c ||
             (m.calls[c].zeros == s.calls[c].zeros && (IsLast(s.porters[p], c) ==> Finished(m.calls[c]) == Targets(m.calls[c])))
    ensures PorterOk(m, p)
  {
    assert PorterOk(s, p);
  }

  lemma OtherQueueOk(s: State, m: State, c: nat, p: nat)
    requires Inv(s) && OnlyCall(s, m, c) && p < s.n && Shape(m)
    requires m.queues[p] == s.queues[p] && (m.calls[c].stage[p] == s.calls[c].stage[p] || c !in s.queues[p])
    ensures QueueOk(m, p)
  {
    assert QueueOk(s, p);
  }

  lemma CallShape(s: State, m: State, c: nat)
    requires Shape(s) && OnlyCall(s, m, c) && |m.queues| == s.n && |m.porters| == s.n
    requires |m.calls[c].stage| == s.n && |m.calls[c].runs| == s.n
    ensures Shape(m)
  {}

  /** Puts the invariant together again after a step of call `c` that moved no porter and changed no stage. */
  lemma CallStepInv(s: State, m: State, c: nat)
    requires Inv(s) && OnlyCall(s, m, c) && OtherViews(s, m, c)
    requires m.queues == s.queues && m.porters == s.porters
    requires m.calls[c].stage == s.calls[c].stage && m.calls[c].zeros == s.calls[c].zeros
    requires CallOk(m.calls[c], m.n, |m.views|) && Holds(m, c)
    requires forall i | 0 <= i < |m.views| && m.views[i].inuse && m.views[i].owner == c :: ViewOk(m, i)
    ensures Inv(m)
  {
    hide CallOk, Holds, ViewOk, PorterOk, QueueOk;
    StageLengths(s.calls[c], s.n, |s.views|);
    StageLengths(m.calls[c], m.n, |m.views|);
    CallShape(s, m, c);
    forall d | 0 <= d < |m.calls| ensures CallOk(m.calls[d], m.n, |m.views|) && Holds(m, d) {
      if d != c { OtherHolds(s, m, c, d); }
    }
    forall i | 0 <= i < |m.views| ensures ViewOk(m, i) {
      if m.views[i].inuse && m.views[i].owner != c { OtherViewOk(s, m, c, i); }
      if !m.views[i].inuse { FreeViewOk(m, i); }
    }
    forall p | 0 <= p < m.n ensures PorterOk(m, p) && QueueOk(m, p) {
      if IsLast(s.porters[p], c) { LastFinished(s, c, p); }
      SameFinished(s.calls[c], m.calls[c]);
      OtherPorterOk(s, m, c, p);
      OtherQueueOk(s, m, c, p);
    }
  }

  lemma StageLengths(call: Call, n: nat, slots: nat)
    requires CallOk(call, n, slots)
    ensures |call.stage| == n && |call.runs| == n
  {}

  lemma FreeViewOk(s: State, i: nat)
    requires i < |s.views| && !s.views[i].inuse
    ensures ViewOk(s, i)
  {}

  lemma LastFinished(s: State, c: nat, p: nat)
    requires Inv(s) && p < s.n && c < |s.calls| && IsLast(s.porters[p], c)
    ensures Finished(s.calls[c]) == Targets(s.calls[c])
  {
    assert PorterOk(s, p);
  }

  lemma SameFinished(a: Call, b: Call)
    requires a.stage == b.stage && a.first == b.first && a.count == b.count
    ensures Finished(a) == Finished(b) && Targets(a) == Targets(b)
  {}

  // ---- the caller's steps ----

  lemma UnregisteredOwnsNothing(s: State, c: nat, i: nat)
    requires Inv(s) && c < |s.calls| && !Registered(s.calls[c]) && i < |s.views|
    ensures !(s.views[i].inuse && s.views[i].owner == c)
  {
    assert ViewOk(s, i);
  }

  lemma ScanInv(s: State, c: nat)
    requires Inv(s) && c < |s.calls| && s.calls[c].pc.Scanning? && StepCall(s, c).calls[c].pc.Scanning?
    ensures Inv(StepCall(s, c))
  {
    hide ViewOk, PorterOk, QueueOk, OneLast;
    var m := StepCall(s, c);
    assert CallOk(s.calls[c], s.n, |s.views|);
    forall i | 0 <= i < |m.views| ensures !(m.views[i].inuse && m.views[i].owner == c) {
      UnregisteredOwnsNothing(s, c, i);
    }
    CallStepInv(s, m, c);
  }

  lemma ClaimInv(s: State, c: nat)
    requires Inv(s) && c < |s.calls| && s.calls[c].pc.Scanning? && s.calls[c].pc.i < |s.views| && !s.views[s.calls[c].pc.i].inuse
    ensures Inv(StepCall(s, c))
  {
    hide PorterOk, QueueOk, OneLast;
    var m := StepCall(s, c);
    assert CallOk(s.calls[c], s.n, |s.views|);
    forall i | 0 <= i < |m.views| && m.views[i].inuse && m.views[i].owner == c ensures ViewOk(m, i) {
      if i != s.calls[c].pc.i { UnregisteredOwnsNothing(s, c, i); }
    }
    CallStepInv(s, m, c);
  }

  lemma OwnView(s: State, c: nat, i: nat)
    requires Inv(s) && c < |s.calls| && i < |s.views| && s.views[i].inuse && s.views[i].owner == c
    ensures Live(s.calls[c]) && s.calls[c].slot == i
  {
    assert ViewOk(s, i);
  }

  lemma NothingFinished(call: Call, n: nat, slots: nat)
    requires CallOk(call, n, slots) && call.k == 0
    ensures Finished(call) == {} && call.zeros == 0
  {
    hide Registered;
    assert forall p | 0 <= p < n :: call.stage[p] == Waiting;
    assert call.first in Targets(call);
  }

  lemma SetupInv(s: State, c: nat)
    requires Inv(s) && c < |s.calls| && s.calls[c].pc.Claimed?
    ensures Inv(StepCall(s, c))
  {
    hide PorterOk, QueueOk, OneLast;
    var m, call := StepCall(s, c), s.calls[c];
    assert CallOk(call, s.n, |s.views|) && Holds(s, c);
    NothingFinished(call, s.n, |s.views|);
    SameFinished(call, m.calls[c]);
    forall i | 0 <= i < |m.views| && m.views[i].inuse && m.views[i].owner == c ensures ViewOk(m, i) {
      OwnView(s, c, i);
    }
    CallStepInv(s, m, c);
  }

  /** Leaving the push loop, and returning. */
  lemma LeaveInv(s: State, c: nat)
    requires Inv(s) && c < |s.calls|
    requires (s.calls[c].pc.Pushing? && s.calls[c].k >= s.calls[c].count) || s.calls[c].pc.Spinning?
    ensures Inv(StepCall(s, c))
  {
    hide PorterOk, QueueOk, OneLast;
    var m, call := StepCall(s, c), s.calls[c];
    assert CallOk(call, s.n, |s.views|) && Holds(s, c);
    SameFinished(call, m.calls[c]);
    forall i | 0 <= i < |m.views| && m.views[i].inuse && m.views[i].owner == c ensures ViewOk(m, i) {
      OwnView(s, c, i);
    }
    CallStepInv(s, m, c);
  }

  /** Puts the invariant together again after a step at porter `p` on behalf of call `c`. */
  lemma StageStepInv(s: State, m: State, c: nat, p: nat)
    requires Inv(s) && OnlyCall(s, m, c) && OtherViews(s, m, c) && p < s.n
    requires |m.queues| == |m.porters| == s.n
    requires forall q | 0 <= q < s.n && q != p :: m.queues[q] == s.queues[q] && m.porters[q] == s.porters[q]
    requires CallOk(m.calls[c], m.n, |m.views|) && Holds(m, c)
    requires |m.calls[c].stage| == s.n && |m.calls[c].runs| == s.n && |s.calls[c].stage| == s.n
    requires forall q | 0 <= q < s.n && q != p :: m.calls[c].stage[q] == s.calls[c].stage[q]
    requires forall q | 0 <= q < s.n && q != p && !s.porters[q].Idle? && s.porters[q].c == c ::
               m.calls[c].zeros == s.calls[c].zeros && (IsLast(s.porters[q], c) ==> Finished(m.calls[c]) == Targets(m.calls[c]))
    requires PorterOk(m, p) && QueueOk(m, p) && OneLast(m)
    requires forall i | 0 <= i < |m.views| && m.views[i].inuse && m.views[i].owner == c :: ViewOk(m, i)
    ensures Inv(m)
  {
    hide CallOk, Holds, ViewOk, PorterOk, QueueOk, OneLast;
    CallShape(s, m, c);
    forall d | 0 <= d < |m.calls| ensures CallOk(m.calls[d], m.n, |m.views|) && Holds(m, d) {
      if d != c { OtherHolds(s, m, c, d); }
    }
    forall i | 0 <= i < |m.views| ensures ViewOk(m, i) {
      if m.views[i].inuse && m.views[i].owner != c { OtherViewOk(s, m, c, i); }
      if !m.views[i].inuse { FreeViewOk(m, i); }
    }
    forall q | 0 <= q < m.n ensures PorterOk(m, q) && QueueOk(m, q) {
      if q != p {
        OtherPorterOk(s, m, c, q);
        OtherQueueOk(s, m, c, q);
      }
    }
  }

  /** A porter with an unfinished stage keeps the call from being complete. */
  lemma NotAllFinished(call: Call, n: nat, slots: nat, p: nat)
    requires CallOk(call, n, slots) && p < n && Target(call, p) && call.stage[p] != Counted
    ensures Finished(call) != Targets(call) && call.zeros == 0
  {
    assert p in Targets(call) && p !in Finished(call);
  }

  lemma FinishedUnchanged(call: Call, p: nat, x: Stage)
    requires p < |call.stage| && call.stage[p] != Counted && x != Counted
    ensures Finished(SetStage(call, p, x)) == Finished(call)
  {}

  /** No porter is at work for a call it has not been given. */
  lemma NotYetTaken(s: State, c: nat, p: nat)
    requires Inv(s) && c < |s.calls| && p < s.n && Target(s.calls[c], p) && s.calls[c].stage[p] == Waiting
    ensures s.porters[p].Idle? || s.porters[p].c != c
    ensures c !in s.queues[p]
  {
    NotAllFinished(s.calls[c], s.n, |s.views|, p);
    assert PorterOk(s, p) && QueueOk(s, p);
  }

  function PushedCall(call: Call): Call
    requires call.first + call.k < |call.stage|
  {
    SetStage(call, call.first + call.k, Queued).(k := call.k + 1)
  }

  lemma PushedCallOk(call: Call, n: nat, slots: nat)
    requires CallOk(call, n, slots) && call.pc.Pushing? && call.k < call.count
    ensures CallOk(PushedCall(call), n, slots) && Finished(PushedCall(call)) == Finished(call) && call.zeros == 0
  {
    var p := call.first + call.k;
    NotAllFinished(call, n, slots, p);
    FinishedUnchanged(call, p, Queued);
  }

  /** A change of the record that the slot does not see. */
  lemma StillHolds(s: State, m: State, c: nat)
    requires c < |s.calls| && c < |m.calls| && Holds(s, c) && m.views == s.views
    requires Live(m.calls[c]) ==> Live(s.calls[c]) && m.calls[c].slot == s.calls[c].slot && (s.calls[c].pc.Claimed? ==> m.calls[c].pc.Claimed?)
    requires Finished(m.calls[c]) == Finished(s.calls[c]) && Targets(m.calls[c]) == Targets(s.calls[c]) && m.calls[c].count == s.calls[c].count
    ensures Holds(m, c)
  {}

  lemma StillOwns(s: State, m: State, c: nat)
    requires Inv(s) && c < |s.calls| == |m.calls| && m.views == s.views
    requires Live(s.calls[c]) ==> Live(m.calls[c]) && m.calls[c].slot == s.calls[c].slot
    ensures forall i | 0 <= i < |m.views| && m.views[i].inuse && m.views[i].owner == c :: ViewOk(m, i)
  {
    forall i | 0 <= i < |m.views| && m.views[i].inuse && m.views[i].owner == c ensures ViewOk(m, i) {
      OwnView(s, c, i);
    }
  }

  lemma PushInv(s: State, c: nat)
    requires Inv(s) && c < |s.calls| && s.calls[c].pc.Pushing? && s.calls[c].k < s.calls[c].count
    requires s.calls[c].first + s.calls[c].k < s.n && |s.queues[s.calls[c].first + s.calls[c].k]| < s.cap
    ensures Inv(StepCall(s, c))
  {
    hide Holds, ViewOk, PorterOk, QueueOk, OneLast;
    var m, call := StepCall(s, c), s.calls[c];
    var p := call.first + call.k;
    assert CallOk(call, s.n, |s.views|) && Holds(s, c) && PorterOk(s, p);
    PushedCallOk(call, s.n, |s.views|);
    NotYetTaken(s, c, p);
    PushedQueueOk(s, c, p);
    StillHolds(s, m, c);
    StillOwns(s, m, c);
    SamePorters(s, m);
    IdlePorterOk(s, m, c, p);
    forall q | 0 <= q < s.n && q != p && !s.porters[q].Idle? && s.porters[q].c == c
      ensures m.calls[c].zeros == call.zeros && (IsLast(s.porters[q], c) ==> Finished(m.calls[c]) == Targets(m.calls[c]))
    {
      if IsLast(s.porters[q], c) { LastFinished(s, c, q); }
    }
    StageStepInv(s, m, c, p);
  }

  lemma SamePorters(s: State, m: State)
    requires OneLast(s) && m.porters == s.porters
    ensures OneLast(m)
  {}

  /** A porter that is not at work for call `c` does not care about it. */
  lemma IdlePorterOk(s: State, m: State, c: nat, p: nat)
    requires OnlyCall(s, m, c) && p < |s.porters| && m.porters == s.porters && PorterOk(s, p) && (s.porters[p].Idle? || s.porters[p].c != c)
    ensures PorterOk(m, p)
  {}

  lemma PushedQueueOk(s: State, c: nat, p: nat)
    requires Inv(s) && c < |s.calls| && s.calls[c].pc.Pushing? && s.calls[c].k < s.calls[c].count
    requires p == s.calls[c].first + s.calls[c].k && p < s.n && |s.queues[p]| < s.cap && c !in s.queues[p]
    ensures QueueOk(StepCall(s, c), p)
  {
    hide CallOk, Holds, ViewOk, PorterOk, OneLast;
    assert QueueOk(s, p);
  }

  // ---- the porter's steps ----

  /** No porter is the last one of a call that still misses a completion. */
  lemma NoLastYet(s: State, c: nat, p: nat, q: nat)
    requires Inv(s) && c < |s.calls| && p < s.n && q < s.n && Target(s.calls[c], p) && s.calls[c].stage[p] != Counted
    ensures !IsLast(s.porters[q], c)
  {
    NotAllFinished(s.calls[c], s.n, |s.views|, p);
    assert PorterOk(s, q);
  }

  lemma NotLastStays(s: State, m: State, p: nat)
    requires OneLast(s) && p < |s.porters| && |m.porters| == |s.porters|
    requires forall q | 0 <= q < |s.porters| && q != p :: m.porters[q] == s.porters[q]
    requires !m.porters[p].Resetting? && !m.porters[p].Freeing?
    ensures OneLast(m)
  {}

  lemma StageCallOk(call: Call, n: nat, slots: nat, p: nat, x: Stage)
    requires CallOk(call, n, slots) && p < n && Target(call, p)
    requires (call.stage[p] == Queued && x == Taken) || (call.stage[p] == Taken && x == Ran)
    ensures var call' := SetStage(call, p, x).(runs := if x == Ran then call.runs[p := call.runs[p] + 1] else call.runs);
            CallOk(call', n, slots) && Finished(call') == Finished(call) && Targets(call') == Targets(call) && call.zeros == 0
  {
    NotAllFinished(call, n, slots, p);
    FinishedUnchanged(call, p, x);
  }

  lemma TakenQueueOk(s: State, c: nat, p: nat)
    requires Inv(s) && p < s.n && s.porters[p].Idle? && s.queues[p] != [] && s.queues[p][0] == c < |s.calls|
    ensures QueueOk(StepPorter(s, p), p)
  {
    hide CallOk, Holds, ViewOk, PorterOk, OneLast;
    assert QueueOk(s, p);
    var m := StepPorter(s, p);
    assert forall i | 0 <= i < |m.queues[p]| :: m.queues[p][i] == s.queues[p][i + 1];
  }

  lemma TakeInv(s: State, p: nat)
    requires Inv(s) && p < s.n && s.porters[p].Idle? && s.queues[p] != []
    ensures Inv(StepPorter(s, p))
  {
    hide Holds, ViewOk, OneLast, QueueOk;
    assert QueueOk(s, p) && PorterOk(s, p);
    QueueHead(s, p);
    var c := s.queues[p][0];
    var m, call := StepPorter(s, p), s.calls[c];
    assert CallOk(call, s.n, |s.views|) && Holds(s, c);
    StageCallOk(call, s.n, |s.views|, p, Taken);
    TakenQueueOk(s, c, p);
    StillHolds(s, m, c);
    StillOwns(s, m, c);
    NotLastStays(s, m, p);
    forall q | 0 <= q < s.n ensures !IsLast(s.porters[q], c) { NoLastYet(s, c, p, q); }
    StageStepInv(s, m, c, p);
  }

  lemma QueueHead(s: State, p: nat)
    requires p < |s.queues| && QueueOk(s, p) && s.queues[p] != []
    ensures var c := s.queues[p][0];
            c < |s.calls| && p < |s.calls[c].stage| && s.calls[c].stage[p] == Queued && Target(s.calls[c], p)
            && Registered(s.calls[c]) && !s.calls[c].pc.Claimed?
  {}

  /** A queue does not mention a call whose task the porter has already taken. */
  lemma TakenNotQueued(s: State, c: nat, p: nat)
    requires p < |s.queues| && QueueOk(s, p) && c < |s.calls| && p < |s.calls[c].stage| && s.calls[c].stage[p] != Queued
    ensures c !in s.queues[p]
  {}

  lemma RunFuncInv(s: State, p: nat)
    requires Inv(s) && p < s.n && s.porters[p].Got?
    ensures Inv(StepPorter(s, p))
  {
    hide Holds, ViewOk, OneLast, QueueOk;
    assert QueueOk(s, p) && PorterOk(s, p);
    var c := s.porters[p].c;
    var m, call := StepPorter(s, p), s.calls[c];
    assert CallOk(call, s.n, |s.views|) && Holds(s, c);
    StageCallOk(call, s.n, |s.views|, p, Ran);
    TakenNotQueued(s, c, p);
    CallShape(s, m, c);
    OtherQueueOk(s, m, c, p);
    StillHolds(s, m, c);
    StillOwns(s, m, c);
    NotLastStays(s, m, p);
    forall q | 0 <= q < s.n ensures !IsLast(s.porters[q], c) { NoLastYet(s, c, p, q); }
    StageStepInv(s, m, c, p);
  }

  lemma LoadMaxInv(s: State, p: nat)
    requires Inv(s) && p < s.n && s.porters[p].Over?
    ensures Inv(StepPorter(s, p))
    ensures var c := s.porters[p].c; c < |s.calls| && s.calls[c].slot < |s.views| && s.views[s.calls[c].slot].inuse
  {
    hide ViewOk, OneLast, QueueOk;
    assert QueueOk(s, p) && PorterOk(s, p);
    var c := s.porters[p].c;
    var m, call := StepPorter(s, p), s.calls[c];
    assert CallOk(call, s.n, |s.views|) && Holds(s, c);
    NotAllFinished(call, s.n, |s.views|, p);
    StillHolds(s, m, c);
    StillOwns(s, m, c);
    OtherQueueOk(s, m, c, p);
    NotLastStays(s, m, p);
    forall q | 0 <= q < s.n ensures !IsLast(s.porters[q], c) { NoLastYet(s, c, p, q); }
    StageStepInv(s, m, c, p);
  }

  // ---- counting ----

  lemma {:induction false} TargetsSize(call: Call)
    ensures |Targets(call)| == call.count
    decreases call.count
  {
    if call.count == 0 {
      assert Targets(call) == {};
    } else {
      var fewer := call.(count := call.count - 1);
      TargetsSize(fewer);
      assert Targets(call) == Targets(fewer) + {call.first + call.count - 1};
    }
  }

  lemma FinishedAreTargets(call: Call, n: nat, slots: nat)
    requires CallOk(call, n, slots)
    ensures Finished(call) <= Targets(call)
  {
    forall p | p in Finished(call) ensures p in Targets(call) {
      assert call.stage[p] != Waiting;
    }
  }

  lemma FinishedGrows(call: Call, p: nat)
    requires p < |call.stage| && call.stage[p] != Counted
    ensures Finished(SetStage(call, p, Counted)) == Finished(call) + {p}
    ensures |Finished(SetStage(call, p, Counted))| == |Finished(call)| + 1
  {
    assert Finished(SetStage(call, p, Counted)) == Finished(call) + {p};
  }

  lemma SubsetOfSameSize(a: set<nat>, b: set<nat>)
    requires a <= b
    ensures |a| <= |b| && (|a| == |b| <==> a == b)
  {
    assert b == a + (b - a);
    assert |b| == |a| + |b - a|;
  }

  /** The count says "last" exactly when every porter of the call has now been counted. */
  lemma LastExactly(call: Call, n: nat, slots: nat, p: nat)
    requires CallOk(call, n, slots) && p < n && Target(call, p) && call.stage[p] == Ran
    ensures var call' := SetStage(call, p, Counted);
            && CallOk(call', n, slots) && Targets(call') == Targets(call)
            && |Finished(call')| == |Finished(call)| + 1
            && (Finished(call') == Targets(call') <==> |Finished(call)| == call.count - 1)
  {
    hide Finished, Targets;
    var call' := SetStage(call, p, Counted);
    NotAllFinished(call, n, slots, p);
    CountedCallOk(call, n, slots, p);
    FinishedGrows(call, p);
    FinishedAreTargets(call', n, slots);
    SubsetOfSameSize(Finished(call'), Targets(call'));
    TargetsSize(call');
    SameTargets(call, call');
  }

  lemma SameTargets(a: Call, b: Call)
    requires a.first == b.first && a.count == b.count
    ensures Targets(a) == Targets(b)
  {}

  lemma CountedCallOk(call: Call, n: nat, slots: nat, p: nat)
    requires CallOk(call, n, slots) && p < n && call.stage[p] == Ran && call.zeros == 0
    ensures CallOk(SetStage(call, p, Counted), n, slots)
  {
    hide Finished, Targets;
  }

  lemma FetchAddInv(s: State, p: nat)
    requires Inv(s) && p < s.n && s.porters[p].Adding?
    ensures Inv(StepPorter(s, p))
  {
    hide ViewOk, OneLast, QueueOk, Finished, Targets;
    assert QueueOk(s, p) && PorterOk(s, p);
    var c := s.porters[p].c;
    var m, call := StepPorter(s, p), s.calls[c];
    assert CallOk(call, s.n, |s.views|) && Holds(s, c);
    NotAllFinished(call, s.n, |s.views|, p);
    LastExactly(call, s.n, |s.views|, p);
    forall q | 0 <= q < s.n ensures !IsLast(s.porters[q], c) { NoLastYet(s, c, p, q); }
    NewLast(s, m, c, p);
    TakenNotQueued(s, c, p);
    CallShape(s, m, c);
    OtherQueueOk(s, m, c, p);
    OwnViewStays(s, m, c);
    StageStepInv(s, m, c, p);
  }

  lemma NewLast(s: State, m: State, c: nat, p: nat)
    requires OneLast(s) && p < |s.porters| && |m.porters| == |s.porters| && (m.porters[p] == Resetting(c) || m.porters[p] == Idle)
    requires forall q | 0 <= q < |s.porters| && q != p :: m.porters[q] == s.porters[q]
    requires forall q | 0 <= q < |s.porters| :: !IsLast(s.porters[q], c)
    ensures OneLast(m)
  {}

  lemma OwnViewStays(s: State, m: State, c: nat)
    requires Inv(s) && c < |s.calls| == |m.calls| && |m.views| == |s.views|
    requires forall i | 0 <= i < |s.views| :: m.views[i].inuse == s.views[i].inuse && m.views[i].owner == s.views[i].owner
    requires Live(s.calls[c]) ==> Live(m.calls[c]) && m.calls[c].slot == s.calls[c].slot
    ensures forall i | 0 <= i < |m.views| && m.views[i].inuse && m.views[i].owner == c :: ViewOk(m, i)
  {
    forall i | 0 <= i < |m.views| && m.views[i].inuse && m.views[i].owner == c ensures ViewOk(m, i) {
      OwnView(s, c, i);
    }
  }

  lemma ResetInv(s: State, p: nat)
    requires Inv(s) && p < s.n && s.porters[p].Resetting?
    ensures Inv(StepPorter(s, p))
  {
    hide ViewOk, OneLast, QueueOk, Finished, Targets;
    assert QueueOk(s, p) && PorterOk(s, p);
    var c := s.porters[p].c;
    var m, call := StepPorter(s, p), s.calls[c];
    assert CallOk(call, s.n, |s.views|) && Holds(s, c);
    StillLast(s, m, c, p);
    OtherQueueOk(s, m, c, p);
    OwnViewStays(s, m, c);
    StageStepInv(s, m, c, p);
  }

  lemma StillLast(s: State, m: State, c: nat, p: nat)
    requires OneLast(s) && p < |s.porters| && |m.porters| == |s.porters| && s.porters[p] == Resetting(c) && m.porters[p] == Freeing(c)
    requires forall q | 0 <= q < |s.porters| && q != p :: m.porters[q] == s.porters[q]
    ensures OneLast(m)
  {}

  /** When the last porter frees the slot, no other porter is at work for the call. */
  lemma LastIsAlone(s: State, c: nat, p: nat, q: nat)
    requires Inv(s) && p < s.n && q < s.n && q != p && s.porters[p] == Freeing(c)
    ensures s.porters[q].Idle? || s.porters[q].c != c
  {
    assert PorterOk(s, p) && PorterOk(s, q);
    assert Target(s.calls[c], q) ==> q in Targets(s.calls[c]);
    assert q in Finished(s.calls[c]) ==> s.calls[c].stage[q] == Counted;
    assert !IsLast(s.porters[q], c);
  }

  lemma FreeInv(s: State, p: nat)
    requires Inv(s) && p < s.n && s.porters[p].Freeing?
    ensures Inv(StepPorter(s, p))
    ensures var c := s.porters[p].c;
            && c < |s.calls| && s.calls[c].slot < |s.views| && s.views[s.calls[c].slot].inuse
            && Finished(s.calls[c]) == Targets(s.calls[c])
  {
    hide ViewOk, OneLast, QueueOk, Finished, Targets;
    assert QueueOk(s, p) && PorterOk(s, p);
    var c := s.porters[p].c;
    var m, call := StepPorter(s, p), s.calls[c];
    assert CallOk(call, s.n, |s.views|) && Holds(s, c);
    SameFinished(call, m.calls[c]);
    NotLastStays(s, m, p);
    OtherQueueOk(s, m, c, p);
    forall q | 0 <= q < s.n && q != p ensures s.porters[q].Idle? || s.porters[q].c != c { LastIsAlone(s, c, p, q); }
    forall i | 0 <= i < |m.views| ensures !(m.views[i].inuse && m.views[i].owner == c) {
      if s.views[i].inuse && s.views[i].owner == c { OwnView(s, c, i); }
    }
    StageStepInv(s, m, c, p);
  }

  lemma DealInv(s: State, p: nat)
    requires Inv(s) && p < s.n && s.porters[p].Dealing?
    ensures Inv(StepPorter(s, p))
  {
    hide ViewOk, OneLast, QueueOk;
    assert QueueOk(s, p) && PorterOk(s, p);
    var c := s.porters[p].c;
    var m, call := StepPorter(s, p), s.calls[c];
    assert CallOk(call, s.n, |s.views|) && Holds(s, c);
    SameFinished(call, m.calls[c]);
    NotLastStays(s, m, p);
    OtherQueueOk(s, m, c, p);
    StillOwns(s, m, c);
    forall q | 0 <= q < s.n && q != p && !s.porters[q].Idle? && s.porters[q].c == c
      ensures m.calls[c].zeros == call.zeros && (IsLast(s.porters[q], c) ==> Finished(m.calls[c]) == Targets(m.calls[c]))
    {
      if IsLast(s.porters[q], c) { LastFinished(s, c, q); }
    }
    StageStepInv(s, m, c, p);
  }

  // ---- every step, every run ----

  lemma NewCallInv(s: State, first: nat, count: nat, synch: bool)
    requires Inv(s) && 1 <= count && first + count <= s.n
    ensures Inv(Apply(s, NewCall(first, count, synch)))
  {
    hide OneLast;
    var m := Apply(s, NewCall(first, count, synch));
    assert CallOk(m.calls[|s.calls|], s.n, |s.views|);
    forall c | 0 <= c < |m.calls| ensures CallOk(m.calls[c], m.n, |m.views|) && Holds(m, c) {
      if c < |s.calls| { assert CallOk(s.calls[c], s.n, |s.views|) && Holds(s, c); }
    }
    forall i | 0 <= i < |m.views| ensures ViewOk(m, i) { assert ViewOk(s, i); }
    forall p | 0 <= p < m.n ensures PorterOk(m, p) && QueueOk(m, p) { assert PorterOk(s, p) && QueueOk(s, p); }
    SamePorters(s, m);
  }

  lemma CallStepKeepsInv(s: State, c: nat)
    requires Inv(s) && c < |s.calls|
    ensures Inv(StepCall(s, c))
  {
    hide CallOk, Holds, ViewOk, PorterOk, QueueOk, OneLast;
    var call := s.calls[c];
    match call.pc {
      case Scanning(i) => if i < |s.views| && !s.views[i].inuse { ClaimInv(s, c); } else { ScanInv(s, c); }
      case Claimed => SetupInv(s, c);
      case Pushing =>
        if call.k >= call.count { LeaveInv(s, c); }
        else if call.first + call.k < s.n && |s.queues[call.first + call.k]| < s.cap { PushInv(s, c); }
      case Spinning => LeaveInv(s, c);
      case Returned =>
    }
  }

  lemma PorterStepKeepsInv(s: State, p: nat)
    requires Inv(s) && p < s.n
    ensures Inv(StepPorter(s, p))
  {
    hide CallOk, Holds, ViewOk, PorterOk, QueueOk, OneLast;
    match s.porters[p] {
      case Idle => if s.queues[p] != [] { TakeInv(s, p); }
      case Got(_) => RunFuncInv(s, p);
      case Over(_) => LoadMaxInv(s, p);
      case Adding(_, _) => FetchAddInv(s, p);
      case Resetting(_) => ResetInv(s, p);
      case Freeing(_) => FreeInv(s, p);
      case Dealing(_) => DealInv(s, p);
    }
  }

  lemma ApplyKeepsInv(s: State, a: Action)
    requires Inv(s)
    ensures Inv(Apply(s, a))
  {
    hide Inv, StepCall, StepPorter;
    match a {
      case NewCall(first, count, synch) => if 1 <= count && first + count <= s.n { NewCallInv(s, first, count, synch); }
      case CallStep(c) => if c < |s.calls| { CallStepKeepsInv(s, c); }
      case PorterStep(p) => if p < s.n { PorterStepKeepsInv(s, p); }
    }
  }

  // ---- nothing gets lost ----

  /** A task on its way is in the porter's queue or in the porter's hands. */
  predicate Followed(s: State, c: nat, p: nat)
    requires Shape(s) && c < |s.calls| && p < s.n
  {
    match s.calls[c].stage[p]
    case Queued => c in s.queues[p]
    case Taken => s.porters[p] == Got(c)
    case Ran => s.porters[p] == Over(c) || (s.porters[p].Adding? && s.porters[p].c == c)
    case _ => true
  }

  predicate SomeLast(s: State, c: nat) {
    exists p | 0 <= p < |s.porters| :: IsLast(s.porters[p], c)
  }

  predicate SomeDealing(s: State, c: nat) {
    exists p | 0 <= p < |s.porters| :: s.porters[p] == Dealing(c)
  }

  /** Once every completion is counted, a porter is about to free the slot and then to set the flag. */
  predicate Woken(s: State, c: nat)
    requires c < |s.calls|
  {
    var call := s.calls[c];
    && (call.zeros == 0 && Finished(call) == Targets(call) ==> SomeLast(s, c))
    && (call.zeros == 1 && call.synch && !call.deal ==> SomeDealing(s, c))
  }

  predicate Tracked(s: State) {
    && Shape(s)
    && (forall c, p | 0 <= c < |s.calls| && 0 <= p < s.n :: Followed(s, c, p))
    && (forall c | 0 <= c < |s.calls| :: Woken(s, c))
  }

  /** A step for call `c` at porter `p` keeps track of everything else. */
  lemma OthersTracked(s: State, m: State, c: nat, p: nat)
    requires Tracked(s) && OnlyCall(s, m, c) && p < s.n && Shape(m)
    requires forall q | 0 <= q < s.n && q != p :: m.queues[q] == s.queues[q] && m.porters[q] == s.porters[q]
    requires forall q | 0 <= q < s.n && q != p :: m.calls[c].stage[q] == s.calls[c].stage[q]
    requires forall d | d in s.queues[p] && d != c :: d in m.queues[p]
    requires m.porters[p] == s.porters[p] || s.porters[p].Idle? || s.porters[p].c == c
    requires Followed(m, c, p) && Woken(m, c)
    ensures Tracked(m)
  {
    hide Woken;
    forall d, q | 0 <= d < |m.calls| && 0 <= q < m.n ensures Followed(m, d, q) { assert Followed(s, d, q); }
    forall d | 0 <= d < |m.calls| ensures Woken(m, d) {
      if d != c { OtherWoken(s, m, c, p, d); }
    }
  }

  lemma OtherWoken(s: State, m: State, c: nat, p: nat, d: nat)
    requires Tracked(s) && OnlyCall(s, m, c) && p < s.n && Shape(m) && d < |s.calls| && d != c
    requires forall q | 0 <= q < s.n && q != p :: m.porters[q] == s.porters[q]
    requires m.porters[p] == s.porters[p] || s.porters[p].Idle? || s.porters[p].c == c
    ensures Woken(m, d)
  {
    hide Followed;
    assert Woken(s, d);
    if SomeLast(s, d) {
      var q :| 0 <= q < s.n && IsLast(s.porters[q], d);
      assert IsLast(m.porters[q], d);
    }
    if SomeDealing(s, d) {
      var q :| 0 <= q < s.n && s.porters[q] == Dealing(d);
      assert m.porters[q] == Dealing(d);
    }
  }

  /** A caller's step that touches neither stages nor porters. */
  lemma QuietStepTracked(s: State, m: State, c: nat)
    requires Tracked(s) && OnlyCall(s, m, c) && m.queues == s.queues && m.porters == s.porters
    requires m.calls[c].stage == s.calls[c].stage && m.calls[c].runs == s.calls[c].runs
    requires m.calls[c].zeros == s.calls[c].zeros && m.calls[c].deal == s.calls[c].deal && m.calls[c].synch == s.calls[c].synch
    ensures Tracked(m)
  {
    SameFinished(s.calls[c], m.calls[c]);
    forall d, q | 0 <= d < |m.calls| && 0 <= q < m.n ensures Followed(m, d, q) { assert Followed(s, d, q); }
    forall d | 0 <= d < |m.calls| ensures Woken(m, d) { assert Woken(s, d); }
  }

  lemma PushTracked(s: State, c: nat)
    requires Inv(s) && Tracked(s) && c < |s.calls| && s.calls[c].pc.Pushing? && s.calls[c].k < s.calls[c].count
    requires s.calls[c].first + s.calls[c].k < s.n && |s.queues[s.calls[c].first + s.calls[c].k]| < s.cap
    ensures Tracked(StepCall(s, c))
  {
    hide Holds, ViewOk, PorterOk, QueueOk, OneLast;
    var m, call := StepCall(s, c), s.calls[c];
    var p := call.first + call.k;
    assert CallOk(call, s.n, |s.views|) && Woken(s, c);
    PushedCallOk(call, s.n, |s.views|);
    NotAllFinished(call, s.n, |s.views|, p);
    OthersTracked(s, m, c, p);
  }

  lemma CallStepTracked(s: State, c: nat)
    requires Inv(s) && Tracked(s) && c < |s.calls|
    ensures Tracked(StepCall(s, c))
  {
    hide CallOk, Holds, ViewOk, PorterOk, QueueOk, OneLast, Followed, Woken;
    var call := s.calls[c];
    if call.pc.Pushing? && call.k < call.count && call.first + call.k < s.n && |s.queues[call.first + call.k]| < s.cap {
      PushTracked(s, c);
    } else {
      QuietStepTracked(s, StepCall(s, c), c);
    }
  }

  lemma TakeTracked(s: State, p: nat)
    requires Inv(s) && Tracked(s) && p < s.n && s.porters[p].Idle? && s.queues[p] != []
    ensures Tracked(StepPorter(s, p))
  {
    hide Holds, ViewOk, PorterOk, OneLast, QueueOk;
    assert QueueOk(s, p);
    QueueHead(s, p);
    var c := s.queues[p][0];
    var m, call := StepPorter(s, p), s.calls[c];
    assert CallOk(call, s.n, |s.views|);
    StageCallOk(call, s.n, |s.views|, p, Taken);
    NotAllFinished(call, s.n, |s.views|, p);
    assert s.queues[p] == [c] + m.queues[p];
    OthersTracked(s, m, c, p);
  }

  lemma WorkTracked(s: State, p: nat)
    requires Inv(s) && Tracked(s) && p < s.n && (s.porters[p].Got? || s.porters[p].Over?)
    ensures Tracked(StepPorter(s, p))
  {
    hide ViewOk, OneLast, QueueOk;
    assert PorterOk(s, p);
    var c := s.porters[p].c;
    var m, call := StepPorter(s, p), s.calls[c];
    assert CallOk(call, s.n, |s.views|) && Holds(s, c);
    if s.porters[p].Got? { StageCallOk(call, s.n, |s.views|, p, Ran); }
    NotAllFinished(call, s.n, |s.views|, p);
    assert Followed(s, c, p);
    OthersTracked(s, m, c, p);
  }

  lemma FetchAddTracked(s: State, p: nat)
    requires Inv(s) && Tracked(s) && p < s.n && s.porters[p].Adding?
    ensures Tracked(StepPorter(s, p))
  {
    hide ViewOk, OneLast, QueueOk, Finished, Targets;
    assert PorterOk(s, p);
    var c := s.porters[p].c;
    var m, call := StepPorter(s, p), s.calls[c];
    assert CallOk(call, s.n, |s.views|) && Holds(s, c);
    NotAllFinished(call, s.n, |s.views|, p);
    LastExactly(call, s.n, |s.views|, p);
    assert IsLast(m.porters[p], c) <==> Finished(m.calls[c]) == Targets(m.calls[c]);
    OthersTracked(s, m, c, p);
  }

  lemma ReleaseTracked(s: State, p: nat)
    requires Inv(s) && Tracked(s) && p < s.n && (s.porters[p].Resetting? || s.porters[p].Freeing? || s.porters[p].Dealing?)
    ensures Tracked(StepPorter(s, p))
  {
    hide ViewOk, OneLast, QueueOk;
    assert PorterOk(s, p);
    var c := s.porters[p].c;
    var m, call := StepPorter(s, p), s.calls[c];
    assert CallOk(call, s.n, |s.views|) && Holds(s, c);
    SameFinished(call, m.calls[c]);
    assert Followed(s, c, p) && Woken(s, c);
    if m.porters[p].Freeing? { assert IsLast(m.porters[p], c); }
    if m.porters[p].Dealing? { assert m.porters[p] == Dealing(c); }
    OthersTracked(s, m, c, p);
  }

  lemma PorterStepTracked(s: State, p: nat)
    requires Inv(s) && Tracked(s) && p < s.n
    ensures Tracked(StepPorter(s, p))
  {
    hide CallOk, Holds, ViewOk, PorterOk, QueueOk, OneLast, Followed, Woken;
    var x := s.porters[p];
    if x.Idle? { if s.queues[p] != [] { TakeTracked(s, p); } }
    else if x.Got? || x.Over? { WorkTracked(s, p); }
    else if x.Adding? { FetchAddTracked(s, p); }
    else { ReleaseTracked(s, p); }
  }

  lemma NewCallTracked(s: State, first: nat, count: nat, synch: bool)
    requires Tracked(s) && 1 <= count && first + count <= s.n
    ensures Tracked(Apply(s, NewCall(first, count, synch)))
  {
    var m := Apply(s, NewCall(first, count, synch));
    var call := m.calls[|s.calls|];
    assert first in Targets(call) && first !in Finished(call);
    forall d, q | 0 <= d < |m.calls| && 0 <= q < m.n ensures Followed(m, d, q) { if d < |s.calls| { assert Followed(s, d, q); } }
    forall d | 0 <= d < |m.calls| ensures Woken(m, d) { if d < |s.calls| { assert Woken(s, d); } }
  }

  lemma ApplyKeepsTrack(s: State, a: Action)
    requires Inv(s) && Tracked(s)
    ensures Tracked(Apply(s, a))
  {
    hide Inv, Tracked, StepCall, StepPorter;
    match a {
      case NewCall(first, count, synch) => if 1 <= count && first + count <= s.n { NewCallTracked(s, first, count, synch); }
      case CallStep(c) => if c < |s.calls| { CallStepTracked(s, c); }
      case PorterStep(p) => if p < s.n { PorterStepTracked(s, p); }
    }
  }

  // ---- the flag in the caller's frame ----

  /** A porter about to set the flag is the only one, and the flag is not set yet. */
  predicate DealOk(s: State, p: nat)
    requires p < |s.porters|
  {
    s.porters[p].Dealing? ==>
      && s.porters[p].c < |s.calls| && !s.calls[s.porters[p].c].deal
      && forall q | 0 <= q < |s.porters| && q != p :: s.porters[q] != s.porters[p]
  }

  predicate DealsOk(s: State) {
    forall p | 0 <= p < |s.porters| :: DealOk(s, p)
  }

  /** A step that starts no new flag write and sets no flag. */
  lemma DealsStay(s: State, m: State)
    requires DealsOk(s) && |m.porters| == |s.porters| && |s.calls| <= |m.calls|
    requires forall p | 0 <= p < |s.porters| :: m.porters[p] == s.porters[p] || !m.porters[p].Dealing?
    requires forall c | 0 <= c < |s.calls| :: m.calls[c].deal == s.calls[c].deal
    ensures DealsOk(m)
  {
    forall p | 0 <= p < |m.porters| ensures DealOk(m, p) { assert DealOk(s, p); }
  }

  lemma FreeDeals(s: State, p: nat)
    requires Inv(s) && DealsOk(s) && p < s.n && s.porters[p].Freeing?
    ensures DealsOk(StepPorter(s, p))
  {
    hide ViewOk, QueueOk, OneLast, Finished, Targets;
    var c := s.porters[p].c;
    var m := StepPorter(s, p);
    assert PorterOk(s, p);
    assert CallOk(s.calls[c], s.n, |s.views|);
    forall q | 0 <= q < s.n ensures s.porters[q] != Dealing(c) { assert PorterOk(s, q); }
    forall q | 0 <= q < |m.porters| ensures DealOk(m, q) { assert DealOk(s, q); }
  }

  lemma SetFlagDeals(s: State, p: nat)
    requires Inv(s) && DealsOk(s) && p < s.n && s.porters[p].Dealing?
    ensures DealsOk(StepPorter(s, p))
  {
    hide CallOk, Holds, ViewOk, PorterOk, QueueOk, OneLast;
    var m := StepPorter(s, p);
    assert DealOk(s, p);
    forall q | 0 <= q < |m.porters| ensures DealOk(m, q) { assert DealOk(s, q); }
  }

  lemma ApplyKeepsDeals(s: State, a: Action)
    requires Inv(s) && DealsOk(s)
    ensures DealsOk(Apply(s, a))
  {
    hide CallOk, Holds, ViewOk, PorterOk, QueueOk, OneLast, DealOk;
    if a.PorterStep? && a.p < s.n && s.porters[a.p].Freeing? {
      FreeDeals(s, a.p);
    } else if a.PorterStep? && a.p < s.n && s.porters[a.p].Dealing? {
      SetFlagDeals(s, a.p);
    } else {
      DealsStay(s, Apply(s, a));
    }
  }

  /** Every state of every run. */
  predicate Good(s: State) {
    Shape(s) && Inv(s) && Tracked(s) && DealsOk(s)
  }

  lemma InitGood(n: nat, cap: nat, slots: nat)
    ensures Good(Init(n, cap, slots))
  {
    hide Followed, Woken;
    InitInv(n, cap, slots);
  }

  function Run(s: State, actions: seq<Action>): (r: State)
    requires Good(s)
    ensures Good(r)
    decreases |actions|
  {
    if actions == [] then s
    else
      ApplyKeepsInv(s, actions[0]);
      ApplyKeepsTrack(s, actions[0]);
      ApplyKeepsDeals(s, actions[0]);
      Run(Apply(s, actions[0]), actions[1..])
  }

  lemma {:induction false} RunOn(s: State, a: seq<Action>, b: seq<Action>)
    requires Good(s)
    ensures Run(s, a + b) == Run(Run(s, a), b)
    decreases |a|
  {
    hide Inv, Tracked, Apply;
    if a == [] {
      assert a + b == b;
    } else {
      GoodStep(s, a[0]);
      RunOn(Apply(s, a[0]), a[1..], b);
      assert (a + b)[1..] == a[1..] + b;
    }
  }

  lemma GoodStep(s: State, a: Action)
    requires Good(s)
    ensures Good(Apply(s, a)) && Run(s, [a]) == Apply(s, a)
  {
    hide Apply, CallOk, Holds, ViewOk, PorterOk, QueueOk, OneLast, Tracked, DealsOk;
    ApplyKeepsInv(s, a);
    ApplyKeepsTrack(s, a);
    ApplyKeepsDeals(s, a);
    assert Run(s, [a]) == Run(Apply(s, a), []);
  }

  /** The state after any interleaving of callers and porters. */
  function Reach(n: nat, cap: nat, slots: nat, actions: seq<Action>): (r: State)
    ensures Good(r)
  {
    InitGood(n, cap, slots);
    Run(Init(n, cap, slots), actions)
  }

  /** A returned synchronous call has been run exactly once by each of its porters and by no other. */
  ghost predicate RunOnce(call: Call) {
    forall p | 0 <= p < |call.runs| :: call.runs[p] == if Target(call, p) then 1 else 0
  }

  lemma FinishedMeansRun(call: Call, n: nat, slots: nat)
    requires CallOk(call, n, slots) && Finished(call) == Targets(call)
    ensures RunOnce(call)
  {
    forall p | 0 <= p < n ensures call.runs[p] == if Target(call, p) then 1 else 0 {
      assert p in Finished(call) <==> call.stage[p] == Counted;
      assert p in Targets(call) <==> Target(call, p);
      FinishedAreTargets(call, n, slots);
    }
  }

  /** What holds in every state of every interleaving of callers and porters. */
  lemma BroadcastSafety(n: nat, cap: nat, slots: nat, actions: seq<Action>, c: nat)
    requires c < |Reach(n, cap, slots, actions).calls|
    ensures var s := Reach(n, cap, slots, actions);
            var call := s.calls[c];
            && (call.synch && call.pc.Returned? ==> RunOnce(call))
            && (forall p | 0 <= p < |call.runs| :: call.runs[p] <= 1 && (call.runs[p] == 1 ==> Target(call, p)))
            && call.zeros <= 1 && (call.zeros == 1 ==> RunOnce(call))
            && (call.synch && call.pc.Returned? ==> call.zeros == 1)
            && (Live(call) ==> call.slot < |s.views| && s.views[call.slot].inuse && s.views[call.slot].owner == c)
            && (forall p | 0 <= p < s.n && !s.porters[p].Idle? && !s.porters[p].Dealing? && s.porters[p].c == c ::
                  call.slot < |s.views| && s.views[call.slot].inuse)
            && (call.synch && (exists p | 0 <= p < s.n :: s.porters[p] == Dealing(c)) ==> !call.pc.Returned?)
  {
    hide Reach, ViewOk, QueueOk, OneLast, Tracked;
    var s := Reach(n, cap, slots, actions);
    var call := s.calls[c];
    assert CallOk(call, s.n, |s.views|) && Holds(s, c);
    if call.zeros == 1 { FinishedMeansRun(call, s.n, |s.views|); }
    forall p | 0 <= p < s.n && call.runs[p] == 1 ensures Target(call, p) { assert call.stage[p] != Waiting; }
    forall p | 0 <= p < s.n && !s.porters[p].Idle? && !s.porters[p].Dealing? && s.porters[p].c == c ensures Live(call) {
      assert PorterOk(s, p);
      if call.stage[p] != Counted { NotAllFinished(call, s.n, |s.views|, p); }
    }
    forall p | 0 <= p < s.n && s.porters[p] == Dealing(c) ensures !call.deal { assert DealOk(s, p); }
  }

  // ---- no deadlock ----

  function Sum(s: seq<nat>): nat {
    if s == [] then 0 else s[0] + Sum(s[1..])
  }

  lemma {:induction false} SumUpdate(s: seq<nat>, i: nat, v: nat)
    requires i < |s|
    ensures Sum(s[i := v]) == Sum(s) - s[i] + v
  {
    if i > 0 {
      SumUpdate(s[1..], i - 1, v);
      assert s[i := v][1..] == s[1..][i - 1 := v];
    } else {
      assert s[0 := v][1..] == s[1..];
    }
  }

  function Rank(x: Porter): nat {
    match x
    case Idle => 0
    case Got(_) => 6
    case Over(_) => 5
    case Adding(_, _) => 4
    case Resetting(_) => 3
    case Freeing(_) => 2
    case Dealing(_) => 1
  }

  /** The steps porter `p` still has to do. */
  function Load(s: State, p: int): nat {
    if 0 <= p < |s.queues| && p < |s.porters| then 7 * |s.queues[p]| + Rank(s.porters[p]) else 0
  }

  /** The steps a caller and its porters still have to do once it holds a slot. */
  function Rest(s: State, c: int): nat {
    if !(0 <= c < |s.calls|) then 0
    else
      var call := s.calls[c];
      match call.pc
      case Scanning(_) => 0
      case Claimed => 8 * call.count + 2
      case Pushing => if call.k <= call.count then 8 * (call.count - call.k) + 1 else 0
      case _ => 0
  }

  function Loads(s: State): seq<nat> {
    seq(s.n, p => Load(s, p))
  }

  function Rests(s: State): seq<nat> {
    seq(|s.calls|, c => Rest(s, c))
  }

  function Work(s: State): nat {
    Sum(Loads(s)) + Sum(Rests(s))
  }

  predicate Busy(s: State, p: nat)
    requires p < |s.queues| && p < |s.porters|
  {
    !s.porters[p].Idle? || s.queues[p] != []
  }

  /** No porter ever waits for anything but new tasks: each step it takes leaves less work. */
  lemma PorterStepWorks(s: State, p: nat)
    requires Good(s) && p < s.n
    ensures Busy(s, p) ==> Work(StepPorter(s, p)) < Work(s)
    ensures !Busy(s, p) ==> StepPorter(s, p) == s
  {
    hide Tracked, ViewOk, OneLast, QueueOk, CallOk, Sum;
    if Busy(s, p) {
      var m := StepPorter(s, p);
      PorterMoves(s, p);
      assert Loads(m) == Loads(s)[p := Load(m, p)];
      SumUpdate(Loads(s), p, Load(m, p));
      assert Rests(m) == Rests(s);
    }
  }

  /** Everything but the stages of one call and the porter itself stays. */
  ghost predicate PorterMoved(s: State, m: State, p: nat) {
    && m.n == s.n && m.cap == s.cap && |m.views| == |s.views| && |m.calls| == |s.calls|
    && |m.queues| == |m.porters| == |s.queues| == |s.porters| == s.n && p < s.n
    && (forall q | 0 <= q < s.n && q != p :: m.queues[q] == s.queues[q] && m.porters[q] == s.porters[q])
    && (forall c | 0 <= c < |s.calls| :: m.calls[c].pc == s.calls[c].pc && m.calls[c].k == s.calls[c].k && m.calls[c].count == s.calls[c].count)
  }

  lemma PorterMoves(s: State, p: nat)
    requires Inv(s) && p < s.n && Busy(s, p)
    ensures PorterMoved(s, StepPorter(s, p), p) && Load(StepPorter(s, p), p) < Load(s, p)
  {
    hide ViewOk, OneLast, QueueOk;
    assert PorterOk(s, p) && QueueOk(s, p);
    if s.porters[p].Idle? {
      QueueHead(s, p);
    } else {
      assert CallOk(s.calls[s.porters[p].c], s.n, |s.views|) && Holds(s, s.porters[p].c);
    }
  }

  /** A caller that holds a slot can always go on once the queues are empty. */
  lemma CallStepWorks(s: State, c: nat)
    requires Good(s) && 1 <= s.cap && c < |s.calls| && (s.calls[c].pc.Claimed? || s.calls[c].pc.Pushing?)
    requires forall p | 0 <= p < s.n :: !Busy(s, p)
    ensures Work(StepCall(s, c)) < Work(s) && Onward(s, StepCall(s, c))
  {
    hide Tracked, ViewOk, OneLast, QueueOk, PorterOk, Holds, Sum;
    var m, call := StepCall(s, c), s.calls[c];
    assert CallOk(call, s.n, |s.views|);
    assert Rests(m) == Rests(s)[c := Rest(m, c)];
    SumUpdate(Rests(s), c, Rest(m, c));
    var p := call.first + call.k;
    if call.pc.Pushing? && call.k < call.count {
      assert !Busy(s, p);
      assert Loads(m) == Loads(s)[p := Load(m, p)];
      SumUpdate(Loads(s), p, Load(m, p));
    } else {
      assert Loads(m) == Loads(s);
    }
  }

  /** No new call, nobody starts or restarts scanning. */
  ghost predicate Onward(s: State, m: State) {
    && m.n == s.n && m.cap == s.cap && |m.views| == |s.views| && |m.calls| == |s.calls|
    && (forall c | 0 <= c < |s.calls| :: if s.calls[c].pc.Scanning? then m.calls[c].pc == s.calls[c].pc else !m.calls[c].pc.Scanning?)
  }

  ghost predicate Quiet(s: State) {
    |s.queues| == |s.porters| == s.n && forall p | 0 <= p < s.n :: !Busy(s, p)
  }

  ghost predicate Settled(s: State) {
    Quiet(s) && forall c | 0 <= c < |s.calls| :: !s.calls[c].pc.Claimed? && !s.calls[c].pc.Pushing?
  }

  /** One step towards a settled state. */
  lemma Progress(s: State) returns (a: Action)
    requires Good(s) && 1 <= s.cap && !Settled(s)
    ensures !a.NewCall? && Work(Apply(s, a)) < Work(s) && Onward(s, Apply(s, a))
  {
    hide Inv, Tracked, Work;
    if !Quiet(s) {
      var p :| 0 <= p < s.n && Busy(s, p);
      PorterStepWorks(s, p);
      PorterMoves(s, p);
      a := PorterStep(p);
    } else {
      var c :| 0 <= c < |s.calls| && (s.calls[c].pc.Claimed? || s.calls[c].pc.Pushing?);
      CallStepWorks(s, c);
      a := CallStep(c);
    }
  }

  lemma {:induction false} Settle(s: State) returns (actions: seq<Action>)
    requires Good(s) && 1 <= s.cap
    ensures Settled(Run(s, actions)) && Onward(s, Run(s, actions))
    decreases Work(s)
  {
    hide Inv, Tracked, Work, Apply;
    if Settled(s) {
      actions := [];
    } else {
      var a := Progress(s);
      GoodStep(s, a);
      var more := Settle(Apply(s, a));
      actions := [a] + more;
      RunOn(s, [a], more);
    }
  }

  /** In a settled state every call that pushed its tasks is complete, and no slot is taken. */
  lemma SettledIsDone(s: State, c: nat)
    requires Good(s) && Settled(s) && c < |s.calls| && Registered(s.calls[c])
    ensures s.calls[c].zeros == 1 && RunOnce(s.calls[c]) && (s.calls[c].synch ==> s.calls[c].deal)
  {
    hide ViewOk, QueueOk, OneLast, PorterOk, Holds;
    var call := s.calls[c];
    assert CallOk(call, s.n, |s.views|) && Woken(s, c);
    forall p | 0 <= p < s.n ensures p in Finished(call) <==> p in Targets(call) {
      assert Followed(s, c, p) && !Busy(s, p);
    }
    assert Finished(call) == Targets(call);
    FinishedMeansRun(call, s.n, |s.views|);
    forall p | 0 <= p < s.n ensures s.porters[p].Idle? { assert !Busy(s, p); }
  }

  lemma SettledIsFree(s: State, i: nat)
    requires Good(s) && Settled(s) && i < |s.views|
    ensures !s.views[i].inuse
  {
    hide CallOk, QueueOk, OneLast, PorterOk, Holds, Tracked;
    assert ViewOk(s, i);
    if s.views[i].inuse { SettledIsDone(s, s.views[i].owner); }
  }

  /** A scanning caller gets a slot. */
  lemma GetsSlot(s: State, c: nat) returns (actions: seq<Action>)
    requires Good(s) && Settled(s) && 1 <= |s.views| && c < |s.calls| && s.calls[c].pc.Scanning?
    ensures var m := Run(s, actions);
            m.cap == s.cap && |m.calls| == |s.calls| && m.calls[c].pc.Claimed?
  {
    hide Inv, Tracked;
    forall i | 0 <= i < |s.views| ensures !s.views[i].inuse { SettledIsFree(s, i); }
    GoodStep(s, CallStep(c));
    actions := [CallStep(c)];
    if s.calls[c].pc.i >= |s.views| {
      var m := Apply(s, CallStep(c));
      GoodStep(m, CallStep(c));
      actions := actions + [CallStep(c)];
      RunOn(s, [CallStep(c)], [CallStep(c)]);
    }
  }

  /** From every state of every run, every call can still be brought to its return. */
  lemma NoDeadlock(s: State, c: nat) returns (actions: seq<Action>)
    requires Good(s) && 1 <= s.cap && 1 <= |s.views| && c < |s.calls|
    ensures var m := Run(s, actions);
            c < |m.calls| && m.calls[c].pc.Returned? && RunOnce(m.calls[c])
  {
    hide Inv, Tracked, Apply, RunOnce, Settled, Run;
    var first := Settle(s);
    var m := Run(s, first);
    var second: seq<Action> := [];
    if m.calls[c].pc.Scanning? {
      var claim := GetsSlot(m, c);
      var rest := Settle(Run(m, claim));
      RunOn(m, claim, rest);
      second := claim + rest;
    } else {
      NothingToDo(m);
    }
    var last := LastStep(Run(m, second), c);
    RunOn(m, second, last);
    actions := first + (second + last);
    RunOn(s, first, second + last);
  }

  lemma NothingToDo(s: State)
    requires Good(s)
    ensures Run(s, []) == s
  {}

  lemma LastStep(s: State, c: nat) returns (actions: seq<Action>)
    requires Good(s) && Settled(s) && c < |s.calls| && Registered(s.calls[c])
    ensures var m := Run(s, actions);
            c < |m.calls| && m.calls[c].pc.Returned? && RunOnce(m.calls[c])
  {
    hide Inv, Tracked;
    SettledIsDone(s, c);
    if s.calls[c].pc.Spinning? {
      GoodStep(s, CallStep(c));
      actions := [CallStep(c)];
    } else {
      actions := [];
    }
  }
}
