/**
 * One host socket under concurrent exec calls: the weak-CAS reservation of in-flight slots, the
 * RAII guard, and the correlation of jobs and responses by request id.  Each caller is a thread;
 * every atomic operation, map access and channel operation is its own step.
 */
module TunnelSocket {
  import opened Prelude

  type ThreadId = nat
  type ReqId = nat
  type Resp = nat

  const MAX_INFLIGHT: nat := 16

  /** `since` and `at` are auxiliary clock readings: when the attempt began and when `cur` was read. */
  datatype Pc =
    | Idle
    | Loaded(cur: nat, since: nat, at: nat)   // in the CAS loop
    | TurnedAway(since: nat, at: nat)         // `try_reserve` returned false
    | Guarded                                 // guard held, nothing dispatched
    | Drawn(id: ReqId)                        // request id drawn
    | Waiting(id: ReqId)                      // waiter enlisted, job sent
    | GaveUp(id: ReqId)                       // timeout, closed channel or send failure
    | Answered(id: ReqId, resp: Resp)         // `dispatch` returned Ok
    | Failed(id: ReqId)                       // `dispatch` returned Err

  /** The oneshot channel of a waiter. */
  datatype Channel = Open | Sent(resp: Resp) | Closed

  datatype Socket = Socket(
    inflight: int,
    nextId: ReqId,
    pending: map<ReqId, ThreadId>,
    chan: map<ReqId, Channel>,
    threads: map<ThreadId, Pc>,
    clock: nat,
    frames: set<(ReqId, Resp)>,       // auxiliary: size-valid Done frames read from this socket
    stale: set<ReqId>)                // auxiliary: ids whose dispatch future was cancelled

  datatype Event =
    | Load(t: ThreadId)
    | Cas(t: ThreadId, spurious: bool)
    | Retire(t: ThreadId)                          // a refused caller leaves
    | Draw(t: ThreadId)
    | Enlist(t: ThreadId)
    | GiveUp(t: ThreadId)
    | Collect(t: ThreadId)
    | Unlist(t: ThreadId)
    | DropGuard(t: ThreadId)
    | Cancel(t: ThreadId)
    | DoneFrame(id: ReqId, resp: Resp, sizeOk: bool)
    | FailFrame(id: ReqId)
    | FailAll

  const FRESH: Socket := Socket(0, 0, map[], map[], map[], 0, {}, {})

  function PcOf(s: Socket, t: ThreadId): Pc { if t in s.threads then s.threads[t] else Idle }

  predicate HoldsGuard(p: Pc) { p.Guarded? || p.Drawn? || p.Waiting? || p.GaveUp? || p.Answered? || p.Failed? }

  /** The threads that hold a live guard. */
  ghost function Guards(s: Socket): set<ThreadId> { set t | t in s.threads && HoldsGuard(s.threads[t]) }

  function At(s: Socket, t: ThreadId, p: Pc): Socket { s.(threads := s.threads[t := p]) }

  /** `deliver`: hand the outcome to the waiter of `id`, if there is one. */
  function Deliver(s: Socket, id: ReqId, out: Channel): Socket {
    if id in s.pending then s.(pending := s.pending - {id}, chan := s.chan[id := out]) else s
  }

  function CloseOpen(m: map<ReqId, Channel>): map<ReqId, Channel> {
    map id | id in m :: if m[id].Open? then Closed else m[id]
  }

  predicate Enabled(s: Socket, ev: Event) {
    match ev
    case Load(t) => PcOf(s, t).Idle?
    case Cas(t, _) => PcOf(s, t).Loaded?
    case Retire(t) => PcOf(s, t).TurnedAway?
    case Draw(t) => PcOf(s, t).Guarded?
    case Enlist(t) => PcOf(s, t).Drawn?
    case GiveUp(t) => PcOf(s, t).Waiting?
    case Collect(t) =>
      PcOf(s, t).Waiting? && PcOf(s, t).id in s.chan && s.chan[PcOf(s, t).id].Sent?
    case Unlist(t) => PcOf(s, t).GaveUp?
    case DropGuard(t) => PcOf(s, t).Guarded? || PcOf(s, t).Answered? || PcOf(s, t).Failed?
    case Cancel(t) => PcOf(s, t).Drawn? || PcOf(s, t).Waiting? || PcOf(s, t).GaveUp?
    case _ => true
  }

  function Act(s: Socket, ev: Event): Socket
    requires Enabled(s, ev)
  {
    match ev
    case Load(t) => At(s, t, Loaded(if s.inflight < 0 then 0 else s.inflight, s.clock, s.clock))
    case Cas(t, spurious) =>
      var p := PcOf(s, t);
      if p.cur >= MAX_INFLIGHT then At(s, t, TurnedAway(p.since, p.at))
      else if s.inflight == p.cur && !spurious then At(s.(inflight := s.inflight + 1), t, Guarded)
      else At(s, t, Loaded(if s.inflight < 0 then 0 else s.inflight, p.since, s.clock))
    case Retire(t) => At(s, t, Idle)
    case Draw(t) => At(s.(nextId := s.nextId + 1), t, Drawn(s.nextId))
    case Enlist(t) =>
      var id := PcOf(s, t).id;
      At(s.(pending := s.pending[id := t], chan := s.chan[id := Open]), t, Waiting(id))
    case GiveUp(t) => At(s, t, GaveUp(PcOf(s, t).id))
    case Collect(t) => At(s, t, Answered(PcOf(s, t).id, s.chan[PcOf(s, t).id].resp))
    case Unlist(t) => At(Deliver(s, PcOf(s, t).id, Closed), t, Failed(PcOf(s, t).id))
    case DropGuard(t) => At(s.(inflight := s.inflight - 1), t, Idle)
    case Cancel(t) => At(s.(inflight := s.inflight - 1, stale := s.stale + {PcOf(s, t).id}), t, Idle)
    case DoneFrame(id, resp, sizeOk) =>
      if sizeOk then Deliver(s.(frames := s.frames + {(id, resp)}), id, Sent(resp)) else Deliver(s, id, Closed)
    case FailFrame(id) => Deliver(s, id, Closed)
    case FailAll => s.(pending := map[], chan := CloseOpen(s.chan))
  }

  /** One tick of the clock, whether or not the event is possible. */
  function Step(s: Socket, ev: Event): Socket {
    var s' := if Enabled(s, ev) then Act(s, ev) else s;
    s'.(clock := s.clock + 1)
  }

  function Run(evs: seq<Event>): Socket
    decreases |evs|
  {
    if evs == [] then FRESH else Step(Run(evs[..|evs| - 1]), evs[|evs| - 1])
  }

  // ---- reservation accounting ----

  /** The counter is the number of live guards, and never exceeds the cap. */
  ghost predicate CountInv(s: Socket) { s.inflight == |Guards(s)| && s.inflight <= MAX_INFLIGHT }

  /** How a thread's move changes the set of live guards. */
  lemma GuardsMove(s: Socket, t: ThreadId, p: Pc, s': Socket)
    requires s'.threads == s.threads[t := p]
    ensures HoldsGuard(p) == HoldsGuard(PcOf(s, t)) ==> Guards(s') == Guards(s)
    ensures HoldsGuard(p) && !HoldsGuard(PcOf(s, t)) ==> |Guards(s')| == |Guards(s)| + 1
    ensures !HoldsGuard(p) && HoldsGuard(PcOf(s, t)) ==> |Guards(s')| == |Guards(s)| - 1
  {
    if HoldsGuard(p) && !HoldsGuard(PcOf(s, t)) {
      assert Guards(s') == Guards(s) + {t};
    } else if !HoldsGuard(p) && HoldsGuard(PcOf(s, t)) {
      assert Guards(s') == Guards(s) - {t};
    } else {
      assert Guards(s') == Guards(s);
    }
  }

  predicate MovesThread(ev: Event) { !ev.DoneFrame? && !ev.FailFrame? && !ev.FailAll? }

  lemma CountStep(s: Socket, ev: Event)
    requires CountInv(s)
    ensures CountInv(Step(s, ev))
  {
    var s' := Step(s, ev);
    if Enabled(s, ev) && MovesThread(ev) {
      GuardsMove(s, ev.t, s'.threads[ev.t], s');
    } else {
      assert Guards(s') == Guards(s);
    }
  }

  lemma {:induction false} CountAlways(evs: seq<Event>)
    ensures CountInv(Run(evs))
    decreases |evs|
  {
    if evs == [] {
      assert Guards(FRESH) == {};
    } else {
      CountAlways(evs[..|evs| - 1]);
      CountStep(Run(evs[..|evs| - 1]), evs[|evs| - 1]);
    }
  }

  /** With any number of weak-CAS loops and drops: 0 <= inflight == live guards <= 16. */
  lemma InflightIsLiveGuards(evs: seq<Event>)
    ensures Run(evs).inflight == |Guards(Run(evs))|
    ensures 0 <= Run(evs).inflight <= 16
  {
    CountAlways(evs);
  }

  /** A value in hand was the true count at a moment of this very attempt. */
  ghost predicate ReadInv(evs: seq<Event>, p: Pc) {
    && (p.Loaded? ==> p.since <= p.at <= |evs| && Run(evs[..p.at]).inflight == p.cur)
    && (p.TurnedAway? ==> p.since <= p.at <= |evs| && Run(evs[..p.at]).inflight >= MAX_INFLIGHT)
  }

  lemma {:induction false} ClockIsLength(evs: seq<Event>)
    ensures Run(evs).clock == |evs|
    decreases |evs|
  {
    if evs != [] { ClockIsLength(evs[..|evs| - 1]); }
  }

  /** What a step can put into a thread's hands: a value read just now, or what it already had. */
  lemma ReadStep(s: Socket, ev: Event, t: ThreadId)
    requires 0 <= s.inflight
    ensures var p, p' := PcOf(s, t), PcOf(Step(s, ev), t);
      && (p'.Loaded? && p' != p ==>
            p'.cur == s.inflight && p'.at == s.clock && (p'.since == s.clock || (p.Loaded? && p'.since == p.since)))
      && (p'.TurnedAway? && p' != p ==>
            p.Loaded? && p.cur >= MAX_INFLIGHT && p'.since == p.since && p'.at == p.at)
  {}

  lemma {:induction false} ReadAlways(evs: seq<Event>, t: ThreadId)
    ensures ReadInv(evs, PcOf(Run(evs), t))
    decreases |evs|
  {
    if evs != [] {
      var pre, ev := evs[..|evs| - 1], evs[|evs| - 1];
      ReadAlways(pre, t);
      CountAlways(pre);
      ClockIsLength(pre);
      ReadStep(Run(pre), ev, t);
      var p, p' := PcOf(Run(pre), t), PcOf(Run(evs), t);
      if p'.Loaded? && p' != p {
        assert evs[..p'.at] == pre;
      } else if p'.Loaded? || p'.TurnedAway? {
        assert evs[..p'.at] == pre[..p'.at];
      }
    }
  }

  /** A caller is turned away only if 16 guards were live at some moment during its attempt. */
  lemma RefusedOnlyWhenFull(evs: seq<Event>, t: ThreadId)
    requires PcOf(Run(evs), t).TurnedAway?
    ensures exists n :: PcOf(Run(evs), t).since <= n <= |evs| && |Guards(Run(evs[..n]))| == 16
  {
    ReadAlways(evs, t);
    var n := PcOf(Run(evs), t).at;
    CountAlways(evs[..n]);
  }

  // ---- job correlation ----

  function IdOf(p: Pc): Option<ReqId> {
    match p
    case Drawn(id) => Some(id)
    case Waiting(id) => Some(id)
    case GaveUp(id) => Some(id)
    case Answered(id, _) => Some(id)
    case Failed(id) => Some(id)
    case _ => None
  }

  /** Ids are drawn once; a pending entry belongs to its drawer or to a cancelled call. */
  ghost predicate IdInv(s: Socket) {
    && (forall t :: t in s.threads && IdOf(s.threads[t]).Some? ==> IdOf(s.threads[t]).value < s.nextId)
    && (forall t, u :: t in s.threads && u in s.threads && t != u && IdOf(s.threads[t]).Some? ==>
          IdOf(s.threads[t]) != IdOf(s.threads[u]))
    && (forall id :: id in s.stale ==> id < s.nextId)
    && (forall t :: t in s.threads && IdOf(s.threads[t]).Some? ==> IdOf(s.threads[t]).value !in s.stale)
    && (forall id :: id in s.chan ==> id < s.nextId)
  }

  ghost predicate PendingInv(s: Socket) {
    && (forall id :: id in s.pending ==> id in s.chan && s.chan[id] == Open)
    && (forall id :: id in s.pending && id !in s.stale ==> WaitsFor(PcOf(s, s.pending[id]), id))
    && (forall t :: t in s.threads && s.threads[t].Drawn? ==> s.threads[t].id !in s.chan)
  }

  predicate WaitsFor(p: Pc, id: ReqId) { p == Waiting(id) || p == GaveUp(id) }

  /** Whatever a waiter receives was a size-valid Done frame for its own id on this socket. */
  ghost predicate OriginInv(s: Socket) {
    && (forall id :: id in s.chan && s.chan[id].Sent? ==> (id, s.chan[id].resp) in s.frames)
    && (forall t :: t in s.threads && s.threads[t].Answered? ==>
          (s.threads[t].id, s.threads[t].resp) in s.frames)
  }

  ghost predicate JobInv(s: Socket) { IdInv(s) && PendingInv(s) && OriginInv(s) }

  /** A thread that keeps or gives up its id, in a step that leaves the channels in range. */
  lemma IdKept(s: Socket, t: ThreadId, p: Pc, s': Socket)
    requires IdInv(s)
    requires IdOf(p).None? || IdOf(p) == IdOf(PcOf(s, t))
    requires s'.threads == s.threads[t := p] && s'.nextId == s.nextId
    requires s'.stale == s.stale
             || (IdOf(p).None? && IdOf(PcOf(s, t)).Some? && s'.stale == s.stale + {IdOf(PcOf(s, t)).value})
    requires forall id :: id in s'.chan ==> id < s'.nextId
    ensures IdInv(s')
  {}

  lemma IdDrawn(s: Socket, t: ThreadId)
    requires IdInv(s) && Enabled(s, Draw(t))
    ensures IdInv(Act(s, Draw(t)))
  {}

  lemma IdFrame(s: Socket, s': Socket)
    requires IdInv(s)
    requires s'.threads == s.threads && s'.nextId == s.nextId && s'.stale == s.stale
    requires forall id :: id in s'.chan ==> id in s.chan
    ensures IdInv(s')
  {}

  lemma IdStep(s: Socket, ev: Event)
    requires IdInv(s)
    requires forall id :: id in s.pending ==> id in s.chan
    ensures IdInv(Step(s, ev))
  {
    if Enabled(s, ev) {
      var s' := Act(s, ev);
      if ev.Draw? {
        IdDrawn(s, ev.t);
      } else if MovesThread(ev) {
        IdKept(s, ev.t, s'.threads[ev.t], s');
      } else {
        IdFrame(s, s');
      }
      IdFrame(s', Step(s, ev));
    } else {
      IdFrame(s, Step(s, ev));
    }
  }

  /** Moves that touch neither the pending map nor the channels. */
  lemma PendingThreadStep(s: Socket, ev: Event)
    requires IdInv(s) && PendingInv(s) && Enabled(s, ev)
    requires MovesThread(ev) && !ev.Enlist? && !ev.Unlist?
    ensures PendingInv(Act(s, ev))
  {}

  lemma PendingMapStep(s: Socket, ev: Event)
    requires IdInv(s) && PendingInv(s) && Enabled(s, ev)
    requires !MovesThread(ev) || ev.Enlist? || ev.Unlist?
    ensures PendingInv(Act(s, ev))
  {
    if ev.Enlist? {
      PendingEnlist(s, ev.t);
    } else if ev.Unlist? {
      PendingDeliver(s, PcOf(s, ev.t).id, Closed);
    }
  }

  lemma PendingEnlist(s: Socket, t: ThreadId)
    requires IdInv(s) && PendingInv(s) && Enabled(s, Enlist(t))
    ensures PendingInv(Act(s, Enlist(t)))
  {}

  lemma PendingDeliver(s: Socket, id: ReqId, out: Channel)
    requires PendingInv(s)
    ensures PendingInv(Deliver(s, id, out)) && id !in Deliver(s, id, out).pending
  {}

  lemma PendingStep(s: Socket, ev: Event)
    requires IdInv(s) && PendingInv(s)
    ensures PendingInv(Step(s, ev))
  {
    if Enabled(s, ev) {
      if MovesThread(ev) && !ev.Enlist? && !ev.Unlist? {
        PendingThreadStep(s, ev);
      } else {
        PendingMapStep(s, ev);
      }
      PendingFrame(Act(s, ev), Step(s, ev));
    } else {
      PendingFrame(s, Step(s, ev));
    }
  }

  lemma PendingFrame(s: Socket, s': Socket)
    requires PendingInv(s) && s' == s.(clock := s'.clock)
    ensures PendingInv(s')
  {}

  lemma OriginStep(s: Socket, ev: Event)
    requires OriginInv(s)
    ensures OriginInv(Step(s, ev))
  {}

  lemma {:induction false} JobsAlways(evs: seq<Event>)
    ensures JobInv(Run(evs))
    decreases |evs|
  {
    if evs != [] {
      var s, ev := Run(evs[..|evs| - 1]), evs[|evs| - 1];
      JobsAlways(evs[..|evs| - 1]);
      IdStep(s, ev);
      PendingStep(s, ev);
      OriginStep(s, ev);
    }
  }

  /** An answer comes from a size-valid Done frame carrying the caller's own, unshared id. */
  lemma AnswerIsOwnFrame(evs: seq<Event>, t: ThreadId)
    requires PcOf(Run(evs), t).Answered?
    ensures var s := Run(evs);
      && (PcOf(s, t).id, PcOf(s, t).resp) in s.frames
      && (forall u :: u in s.threads && u != t ==> IdOf(s.threads[u]) != Some(PcOf(s, t).id))
  {
    JobsAlways(evs);
  }

  /** A resolved waiter stays resolved: a later frame for its id, or teardown, changes nothing. */
  lemma ResolvedOnce(evs: seq<Event>, ev: Event, id: ReqId)
    requires id in Run(evs).chan && !Run(evs).chan[id].Open?
    ensures id in Step(Run(evs), ev).chan && Step(Run(evs), ev).chan[id] == Run(evs).chan[id]
  {
    JobsAlways(evs);
  }

  /** Over the rest of any run: what a waiter was handed first is all it is ever handed. */
  lemma {:induction false} ResolvedForever(evs: seq<Event>, n: nat, id: ReqId)
    requires n <= |evs| && id in Run(evs[..n]).chan && !Run(evs[..n]).chan[id].Open?
    ensures id in Run(evs).chan && Run(evs).chan[id] == Run(evs[..n]).chan[id]
    decreases |evs|
  {
    if n == |evs| {
      assert evs[..n] == evs;
    } else {
      var pre := evs[..|evs| - 1];
      assert pre[..n] == evs[..n];
      ResolvedForever(pre, n, id);
      ResolvedOnce(pre, evs[|evs| - 1], id);
    }
  }

  predicate IsFrameFor(ev: Event, id: ReqId) { (ev.DoneFrame? || ev.FailFrame?) && ev.id == id }

  /** Done and Fail frames for late and unknown ids are ignored. */
  lemma UnknownIdIgnored(s: Socket, ev: Event, id: ReqId)
    requires IsFrameFor(ev, id) && id !in s.pending
    ensures var s' := Step(s, ev);
      && s'.pending == s.pending && s'.chan == s.chan && s'.threads == s.threads
      && s'.inflight == s.inflight && s'.nextId == s.nextId
  {}

  lemma {:induction false} InjectionCard<A(!new), B(!new)>(m: map<A, B>, keys: set<A>, image: set<B>)
    requires forall a :: a in keys ==> a in m && m[a] in image
    requires forall a, b :: a in keys && b in keys && a != b ==> m[a] != m[b]
    ensures |keys| <= |image|
    decreases |keys|
  {
    if keys != {} {
      var a :| a in keys;
      InjectionCard(m, keys - {a}, image - {m[a]});
    }
  }

  /** Pending entries never outnumber live guards plus cancelled calls. */
  lemma PendingBounded(evs: seq<Event>)
    ensures var s := Run(evs); |s.pending| <= s.inflight + |s.stale|
  {
    var s := Run(evs);
    JobsAlways(evs);
    CountAlways(evs);
    var live := s.pending.Keys - s.stale;
    forall a, b | a in live && b in live && a != b ensures s.pending[a] != s.pending[b] {
      assert WaitsFor(PcOf(s, s.pending[a]), a) && WaitsFor(PcOf(s, s.pending[b]), b);
    }
    forall a | a in live ensures s.pending[a] in Guards(s) {
      assert WaitsFor(PcOf(s, s.pending[a]), a);
    }
    InjectionCard(s.pending, live, Guards(s));
    SubsetCard(s.pending.Keys, live + s.stale);
    assert |live + s.stale| <= |live| + |s.stale|;
    assert |s.pending| == |s.pending.Keys|;
  }

  predicate NoCancel(evs: seq<Event>) { forall i :: 0 <= i < |evs| ==> !evs[i].Cancel? }

  lemma {:induction false} NothingStale(evs: seq<Event>)
    requires NoCancel(evs)
    ensures Run(evs).stale == {}
    decreases |evs|
  {
    if evs != [] {
      var pre := evs[..|evs| - 1];
      assert forall i :: 0 <= i < |pre| ==> pre[i] == evs[i];
      NothingStale(pre);
      assert !evs[|evs| - 1].Cancel?;
    }
  }

  /** If no dispatch future is cancelled, the pending map is no larger than `inflight`. */
  lemma PendingWithinInflight(evs: seq<Event>)
    requires NoCancel(evs)
    ensures |Run(evs).pending| <= Run(evs).inflight <= MAX_INFLIGHT
  {
    PendingBounded(evs);
    NothingStale(evs);
    CountAlways(evs);
  }

  // ---- the object ----

  lemma RunSnoc(evs: seq<Event>, ev: Event)
    ensures Run(evs + [ev]) == Step(Run(evs), ev)
  {
    assert (evs + [ev])[..|evs|] == evs;
  }

  class HostSocket {
    var inflight: nat
    var pending: map<ReqId, ThreadId>
    var nextRequestId: ReqId
    ghost var trace: seq<Event>          // what all callers and the reader have done to this socket

    constructor ()
      ensures Valid() && trace == []
    {
      inflight, pending, nextRequestId, trace := 0, map[], 0, [];
    }

    /** The fields are those of the interleaved model after `trace`. */
    ghost predicate Valid()
      reads this
    {
      inflight == Run(trace).inflight && pending == Run(trace).pending && nextRequestId == Run(trace).nextId
    }

    ghost predicate At(t: ThreadId, p: Pc)
      reads this
    {
      PcOf(Run(trace), t) == p
    }

    /** The CAS loop; `spurious` is how often the weak exchange fails although the value matched. */
    method TryReserve(spurious: nat, ghost t: ThreadId) returns (ok: bool)
      requires Valid() && At(t, Idle)
      modifies this`inflight, this`trace
      ensures Valid() && old(trace) <= trace
      ensures ok <==> |Guards(Run(old(trace)))| < 16
      ensures ok ==> At(t, Guarded) && inflight == old(inflight) + 1
      ensures !ok ==> PcOf(Run(trace), t).TurnedAway? && inflight == old(inflight)
    {
      CountAlways(trace);
      RunSnoc(trace, Load(t));
      trace := trace + [Load(t)];
      var cur, left := inflight, spurious;
      while true
        invariant Valid() && old(trace) <= trace && inflight == old(inflight) && cur == inflight
        invariant left >= 0 && PcOf(Run(trace), t).Loaded? && PcOf(Run(trace), t).cur == cur
        decreases left
      {
        RunSnoc(trace, Cas(t, left > 0));
        trace := trace + [Cas(t, left > 0)];
        if cur >= MAX_INFLIGHT { return false; }
        if left == 0 && inflight == cur {
          inflight := cur + 1;
          return true;
        }
        cur, left := inflight, left - 1;
      }
    }

    /** Dropping a guard: the counter cannot underflow, because this guard is one of those it counts. */
    method Release(ghost t: ThreadId)
      requires Valid() && Enabled(Run(trace), DropGuard(t))
      modifies this`inflight, this`trace
      ensures Valid() && trace == old(trace) + [DropGuard(t)]
      ensures inflight == |Guards(Run(old(trace))) - {t}| && At(t, Idle)
    {
      RunSnoc(trace, DropGuard(t));
      CountAlways(trace);
      assert t in Guards(Run(trace));
      inflight := inflight - 1;
      trace := trace + [DropGuard(t)];
    }

    /** The start of `dispatch`: draw an id nobody has and list the waiter under it. */
    method Enlist(t: ThreadId) returns (id: ReqId)
      requires Valid() && At(t, Guarded)
      modifies this`pending, this`nextRequestId, this`trace
      ensures Valid() && trace == old(trace) + [Draw(t), Event.Enlist(t)]
      ensures id !in old(pending) && pending == old(pending)[id := t] && At(t, Waiting(id))
    {
      JobsAlways(trace);
      RunSnoc(trace, Draw(t));
      RunSnoc(trace + [Draw(t)], Event.Enlist(t));
      assert trace + [Draw(t)] + [Event.Enlist(t)] == trace + [Draw(t), Event.Enlist(t)];
      id := nextRequestId;
      nextRequestId := nextRequestId + 1;
      pending := pending[id := t];
      trace := trace + [Draw(t), Event.Enlist(t)];
    }

    /** `deliver`: take the waiter of `id` out of the map and hand it the outcome. */
    method Deliver(id: ReqId, resp: Option<Resp>) returns (waiter: Option<ThreadId>)
      requires Valid()
      modifies this`pending, this`trace
      ensures Valid()
      ensures trace == old(trace) + [if resp.Some? then DoneFrame(id, resp.value, true) else FailFrame(id)]
      ensures pending == old(pending) - {id}
      ensures waiter == if id in old(pending) then Some(old(pending)[id]) else None
      ensures waiter.Some? && resp.Some? ==> id in Run(trace).chan && Run(trace).chan[id] == Sent(resp.value)
      ensures waiter.Some? && resp.None? ==> id in Run(trace).chan && Run(trace).chan[id] == Closed
      ensures waiter.None? ==> pending == old(pending) && Run(trace).chan == Run(old(trace)).chan
    {
      ghost var ev := if resp.Some? then DoneFrame(id, resp.value, true) else FailFrame(id);
      RunSnoc(trace, ev);
      trace := trace + [ev];
      if id in pending {
        waiter := Some(pending[id]);
        pending := pending - {id};
      } else {
        waiter := None;
      }
    }

    /** The socket died or was replaced: nobody is left waiting. */
    method FailAllPending()
      requires Valid()
      modifies this`pending, this`trace
      ensures Valid() && trace == old(trace) + [FailAll] && pending == map[]
      ensures forall id :: id in Run(trace).chan ==> !Run(trace).chan[id].Open?
    {
      RunSnoc(trace, FailAll);
      pending := map[];
      trace := trace + [FailAll];
    }
  }
}
