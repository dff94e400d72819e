/**
 * `/v1/exec` over the reverse tunnel, end to end: the socket directory, every socket, the store and any
 * number of calls, all interleaved.  A call finds the socket of its host, reserves a slot, burns its token
 * while it holds the guard, dispatches the job and waits for the frame.
 */
module TunnelExec {
  import opened Prelude
  import opened Tables
  import opened SpendChain
  import Exec
  import Retry
  import D = TunnelDirectory
  import S = TunnelSocket

  /** A call is a thread of the socket it found. */
  type CallId = S.ThreadId

  datatype Stage =
    | Looking                                          // host resolved, no socket looked up yet
    | Reserving(gen: D.Generation)                     // in the CAS loop of the socket it found
    | Holding(gen: D.Generation)                       // guard held, token not yet burned
    | TurnedDown(gen: D.Generation)                     // guard held, spend refused
    | Dispatched(gen: D.Generation)                    // token burned and bound, job under way
    | Answered(gen: D.Generation, id: S.ReqId, resp: S.Resp)
    | Over

  datatype Call = Call(sid: SpendId, host: HostAccount, stage: Stage)

  datatype System = System(
    dir: D.Directory,
    socks: map<D.Generation, S.Socket>,
    calls: map<CallId, Call>,
    db: Tables)

  datatype Event =
    | Directory(de: D.Event)                           // a handler connects, draws, inserts or tears down
    | Reader(gen: D.Generation, se: S.Event)           // a frame is read, or all pending are failed
    | Thread(se: S.Event)                              // one atomic step of a call on its socket
    | Accept(call: CallId, sid: SpendId, host: HostAccount)
    | Find(call: CallId)
    | Reserve(call: CallId)
    | Spend(call: CallId, epoch: Epoch, fault: bool)
    | Finish(call: CallId)
    | Other(txn: Txn)

  const FRESH: System := System(D.EMPTY, map[], map[], EMPTY)

  function StageOf(s: System, c: CallId): Stage { if c in s.calls then s.calls[c].stage else Over }

  predicate OnSocket(g: Stage) { !g.Looking? && !g.Over? }

  /** Which steps a call takes on its socket, stage by stage. */
  predicate MayStep(g: Stage, ev: S.Event) {
    match ev
    case Load(_) => g.Reserving?
    case Cas(_, _) => g.Reserving?
    case Retire(_) => g.Reserving?
    case Draw(_) => g.Dispatched?
    case Enlist(_) => g.Dispatched?
    case GiveUp(_) => g.Dispatched?
    case Collect(_) => g.Dispatched?
    case Unlist(_) => g.Dispatched?
    case DropGuard(_) => g.Holding? || g.TurnedDown? || g.Dispatched? || g.Answered?
    case Cancel(_) => g.Dispatched?
    case _ => false
  }

  predicate Ends(ev: S.Event) { ev.Retire? || ev.DropGuard? || ev.Cancel? }

  predicate Enabled(s: System, ev: Event) {
    match ev
    case Directory(_) => true
    case Reader(gen, se) => gen in s.socks && !S.MovesThread(se)
    case Thread(se) =>
      && S.MovesThread(se) && MayStep(StageOf(s, se.t), se)
      && StageOf(s, se.t).gen in s.socks && S.Enabled(s.socks[StageOf(s, se.t).gen], se)
    case Accept(c, _, host) => c !in s.calls && Exec.ResolveActiveHost(s.db, host).Some?
    case Find(c) => StageOf(s, c).Looking? && s.calls[c].host in s.dir.sockets
    case Reserve(c) =>
      StageOf(s, c).Reserving? && StageOf(s, c).gen in s.socks && S.PcOf(s.socks[StageOf(s, c).gen], c).Guarded?
    case Spend(c, _, _) => StageOf(s, c).Holding?
    case Finish(c) =>
      StageOf(s, c).Dispatched? && StageOf(s, c).gen in s.socks && S.PcOf(s.socks[StageOf(s, c).gen], c).Answered?
    case Other(_) => true
  }

  function Enter(s: System, c: CallId, g: Stage): map<CallId, Call>
    requires c in s.calls
  {
    s.calls[c := s.calls[c].(stage := g)]
  }

  function SpendStep(s: System, c: CallId, e: Epoch, fault: bool): System
    requires StageOf(s, c).Holding?
  {
    var call := s.calls[c];
    if !fault && SpendOutcomeOf(s.db, call.sid, e).Spent? then
      s.(db := SpendTxn(s.db, call.sid, call.host, e), calls := Enter(s, c, Dispatched(call.stage.gen)))
    else s.(calls := Enter(s, c, TurnedDown(call.stage.gen)))
  }

  /** A handler that draws a generation creates the socket that carries it. */
  function DirectoryStep(s: System, de: D.Event): System {
    s.(dir := D.Step(s.dir, de),
       socks := if D.Enabled(s.dir, de) && de.Draw? then s.socks[s.dir.next := S.FRESH] else s.socks)
  }

  function ThreadStep(s: System, se: S.Event): System
    requires Enabled(s, Thread(se))
  {
    var g := s.calls[se.t].stage;
    s.(socks := s.socks[g.gen := S.Step(s.socks[g.gen], se)],
       calls := if Ends(se) && !g.Answered? then Enter(s, se.t, Over) else s.calls)
  }

  function FinishStep(s: System, c: CallId): System
    requires Enabled(s, Finish(c))
  {
    var g := s.calls[c].stage.gen;
    var p := S.PcOf(s.socks[g], c);
    s.(calls := Enter(s, c, Answered(g, p.id, p.resp)))
  }

  function Step(cfg: Config, s: System, ev: Event): System {
    if !Enabled(s, ev) then s
    else match ev
      case Directory(de) => DirectoryStep(s, de)
      case Reader(gen, se) => s.(socks := s.socks[gen := S.Step(s.socks[gen], se)])
      case Thread(se) => ThreadStep(s, se)
      case Accept(c, sid, host) => s.(calls := s.calls[c := Call(sid, host, Looking)])
      case Find(c) => s.(calls := Enter(s, c, Reserving(s.dir.sockets[s.calls[c].host])))
      case Reserve(c) => s.(calls := Enter(s, c, Holding(s.calls[c].stage.gen)))
      case Spend(c, e, fault) => SpendStep(s, c, e, fault)
      case Finish(c) => FinishStep(s, c)
      case Other(x) => s.(db := Apply(cfg, s.db, x))
  }

  function Run(cfg: Config, evs: seq<Event>): System
    decreases |evs|
  {
    if evs == [] then FRESH else Step(cfg, Run(cfg, evs[..|evs| - 1]), evs[|evs| - 1])
  }

  // ---- what holds of one call ----

  /** The socket of generation `g` belongs to a handler that authenticated as `host`. */
  ghost predicate OwnedBy(d: D.Directory, g: D.Generation, host: HostAccount) {
    g in d.drawn && d.drawn[g] in d.handlers && d.handlers[d.drawn[g]].account == host
  }

  ghost predicate Bound(t: Tables, call: Call) {
    call.sid in t.spent && call.sid in t.spendHost && t.spendHost[call.sid] == call.host
  }

  predicate Burned(g: Stage) { g.Dispatched? || g.Answered? }

  /** The response is a Done frame of this socket, for an id no other call has or will have. */
  ghost predicate Framed(k: S.Socket, c: CallId, id: S.ReqId, resp: S.Resp) {
    && (id, resp) in k.frames
    && id < k.nextId
    && forall t :: t in k.threads && t != c ==> S.IdOf(k.threads[t]) != Some(id)
  }

  ghost predicate OnItsSocket(k: S.Socket, c: CallId, g: Stage) {
    && (g.Holding? || g.TurnedDown? ==> S.PcOf(k, c).Guarded?)
    && (g.Dispatched? ==> S.HoldsGuard(S.PcOf(k, c)))
    && (g.Answered? ==> Framed(k, c, g.id, g.resp))
  }

  ghost predicate CallInv(s: System, c: CallId)
    requires c in s.calls
  {
    var call := s.calls[c];
    && (OnSocket(call.stage) ==>
          && OwnedBy(s.dir, call.stage.gen, call.host)
          && call.stage.gen in s.socks
          && OnItsSocket(s.socks[call.stage.gen], c, call.stage))
    && (Burned(call.stage) ==> Bound(s.db, call))
  }

  ghost predicate CallsInv(s: System) { forall c :: c in s.calls ==> CallInv(s, c) }

  /** One token, one call; one job, one call. */
  ghost predicate Apart(x: Call, y: Call) {
    && (Burned(x.stage) && Burned(y.stage) ==> x.sid != y.sid)
    && (x.stage.Answered? && y.stage.Answered? && x.stage.gen == y.stage.gen ==> x.stage.id != y.stage.id)
  }

  ghost predicate ApartInv(s: System) {
    forall c, d :: c in s.calls && d in s.calls && c != d ==> Apart(s.calls[c], s.calls[d])
  }

  ghost predicate SocketInv(k: S.Socket) { S.CountInv(k) && S.JobInv(k) }

  /** The directory and the sockets by themselves. */
  ghost predicate PartsInv(s: System) {
    && D.DirectoryInv(s.dir)
    && s.dir.drawn.Keys <= s.socks.Keys
    && SocketsInv(s.socks, s.dir.next)
  }

  ghost predicate SocketsInv(socks: map<D.Generation, S.Socket>, next: D.Generation) {
    forall g :: g in socks ==> g < next && SocketInv(socks[g])
  }

  // ---- the parts, step by step ----

  lemma OwnershipStays(d: D.Directory, ev: D.Event, g: D.Generation, host: HostAccount)
    requires D.DirectoryInv(d) && OwnedBy(d, g, host)
    ensures OwnedBy(D.Step(d, ev), g, host)
  {}

  lemma SocketStep(k: S.Socket, ev: S.Event)
    requires SocketInv(k)
    ensures SocketInv(S.Step(k, ev))
  {
    S.CountStep(k, ev);
    S.IdStep(k, ev);
    S.PendingStep(k, ev);
    S.OriginStep(k, ev);
  }

  lemma FreshSocket()
    ensures SocketInv(S.FRESH)
  {
    assert S.Guards(S.FRESH) == {};
  }

  /** A step by others, or by the reader, leaves a call where it is. */
  lemma OthersLeaveCall(k: S.Socket, ev: S.Event, c: CallId)
    requires S.MovesThread(ev) ==> ev.t != c
    ensures S.PcOf(S.Step(k, ev), c) == S.PcOf(k, c)
  {}

  lemma FramedStays(k: S.Socket, ev: S.Event, c: CallId, id: S.ReqId, resp: S.Resp)
    requires Framed(k, c, id, resp)
    ensures Framed(S.Step(k, ev), c, id, resp)
  {
    var k' := S.Step(k, ev);
    forall t | t in k'.threads && t != c ensures S.IdOf(k'.threads[t]) != Some(id) {
      if t in k.threads { assert S.IdOf(k.threads[t]) != Some(id); }
    }
  }

  lemma OnItsSocketStays(k: S.Socket, ev: S.Event, c: CallId, g: Stage)
    requires OnItsSocket(k, c, g) && (S.MovesThread(ev) ==> ev.t != c)
    ensures OnItsSocket(S.Step(k, ev), c, g)
  {
    OthersLeaveCall(k, ev, c);
    if g.Answered? { FramedStays(k, ev, c, g.id, g.resp); }
  }

  /** Its own step keeps a call's guard until the step that ends the call. */
  lemma OwnStep(k: S.Socket, ev: S.Event, g: Stage)
    requires S.MovesThread(ev) && MayStep(g, ev) && S.Enabled(k, ev) && OnItsSocket(k, ev.t, g)
    requires !Ends(ev) || g.Answered?
    ensures OnItsSocket(S.Step(k, ev), ev.t, g)
  {
    if g.Answered? { FramedStays(k, ev, ev.t, g.id, g.resp); }
  }

  // ---- the directory and the sockets ----

  lemma PartsSocket(s: System, gen: D.Generation, se: S.Event, s': System)
    requires PartsInv(s) && gen in s.socks
    requires s'.dir == s.dir && s'.socks == s.socks[gen := S.Step(s.socks[gen], se)]
    ensures PartsInv(s')
  {
    SocketStep(s.socks[gen], se);
    SocketsUpdate(s.socks, s.dir.next, gen, S.Step(s.socks[gen], se));
  }

  lemma SocketsUpdate(socks: map<D.Generation, S.Socket>, next: D.Generation, gen: D.Generation, k: S.Socket)
    requires SocketsInv(socks, next) && gen < next && SocketInv(k)
    ensures SocketsInv(socks[gen := k], next)
  {}

  lemma PartsFrame(s: System, s': System)
    requires PartsInv(s) && s'.dir == s.dir && s'.socks == s.socks
    ensures PartsInv(s')
  {}

  lemma PartsDirectory(s: System, de: D.Event)
    requires PartsInv(s)
    ensures PartsInv(DirectoryStep(s, de))
  {
    D.DirectoryStep(s.dir, de);
    DrawnGrows(s.dir, de);
    FreshSocket();
    SocketsGrow(s.socks, s.dir.next);
  }

  lemma DrawnGrows(d: D.Directory, de: D.Event)
    ensures var d' := D.Step(d, de);
      if D.Enabled(d, de) && de.Draw? then d'.next == d.next + 1 && d'.drawn.Keys == d.drawn.Keys + {d.next}
      else d'.next == d.next && d'.drawn == d.drawn
  {}

  lemma SocketsGrow(socks: map<D.Generation, S.Socket>, next: D.Generation)
    requires SocketsInv(socks, next) && SocketInv(S.FRESH)
    ensures SocketsInv(socks[next := S.FRESH], next + 1)
  {}

  lemma OnlyCallsAndStore(cfg: Config, s: System, ev: Event)
    requires !ev.Directory? && !ev.Reader? && !ev.Thread?
    ensures Step(cfg, s, ev).dir == s.dir && Step(cfg, s, ev).socks == s.socks
  {}

  lemma PartsStep(cfg: Config, s: System, ev: Event)
    requires PartsInv(s)
    ensures PartsInv(Step(cfg, s, ev))
  {
    if Enabled(s, ev) {
      if ev.Directory? {
        PartsDirectory(s, ev.de);
      } else if ev.Reader? {
        PartsSocket(s, ev.gen, ev.se, Step(cfg, s, ev));
      } else if ev.Thread? {
        PartsSocket(s, s.calls[ev.se.t].stage.gen, ev.se, Step(cfg, s, ev));
      } else {
        OnlyCallsAndStore(cfg, s, ev);
        PartsFrame(s, Step(cfg, s, ev));
      }
    }
  }

  /** What the directory and the sockets contribute to a step of the calls. */
  ghost predicate Ready(s: System, ev: Event)
    requires Enabled(s, ev)
  {
    match ev
    case Directory(_) => D.DirectoryInv(s.dir)
    case Find(c) =>
      var gen := s.dir.sockets[s.calls[c].host];
      OwnedBy(s.dir, gen, s.calls[c].host) && gen in s.socks
    case Finish(c) =>
      var k := s.socks[s.calls[c].stage.gen];
      Framed(k, c, S.PcOf(k, c).id, S.PcOf(k, c).resp)
    case _ => true
  }

  lemma OwnFrame(k: S.Socket, c: CallId)
    requires SocketInv(k) && S.PcOf(k, c).Answered?
    ensures Framed(k, c, S.PcOf(k, c).id, S.PcOf(k, c).resp)
  {}

  lemma PartsReady(s: System, ev: Event)
    requires PartsInv(s) && Enabled(s, ev)
    ensures Ready(s, ev)
  {
    if ev.Find? {
      assert D.Backed(s.dir, s.calls[ev.call].host);
    } else if ev.Finish? {
      OwnFrame(s.socks[s.calls[ev.call].stage.gen], ev.call);
    }
  }

  // ---- the calls ----

  /** A call that takes no step itself keeps what holds of it. */
  lemma CallFrame(s: System, s': System, c: CallId)
    requires c in s.calls && c in s'.calls && CallInv(s, c) && s'.calls[c] == s.calls[c] && Persists(s.db, s'.db)
    requires var g := s.calls[c].stage;
      OnSocket(g) ==>
        && OwnedBy(s'.dir, g.gen, s.calls[c].host) && g.gen in s'.socks
        && (g.gen in s.socks && OnItsSocket(s.socks[g.gen], c, g) ==> OnItsSocket(s'.socks[g.gen], c, g))
    ensures CallInv(s', c)
  {}

  lemma DirectoryKeepsCall(s: System, de: D.Event, c: CallId)
    requires D.DirectoryInv(s.dir) && c in s.calls && CallInv(s, c)
    ensures CallInv(DirectoryStep(s, de), c)
  {
    var g := s.calls[c].stage;
    if OnSocket(g) {
      OwnershipStays(s.dir, de, g.gen, s.calls[c].host);
      assert g.gen < s.dir.next;
    }
    CallFrame(s, DirectoryStep(s, de), c);
  }

  lemma ReaderKeepsCall(s: System, gen: D.Generation, se: S.Event, s': System, c: CallId)
    requires gen in s.socks && !S.MovesThread(se) && c in s.calls && CallInv(s, c)
    requires s' == s.(socks := s.socks[gen := S.Step(s.socks[gen], se)])
    ensures CallInv(s', c)
  {
    var g := s.calls[c].stage;
    if OnSocket(g) && g.gen == gen { OnItsSocketStays(s.socks[gen], se, c, g); }
    CallFrame(s, s', c);
  }

  lemma ThreadKeepsOther(s: System, se: S.Event, c: CallId)
    requires Enabled(s, Thread(se)) && c in s.calls && c != se.t && CallInv(s, c)
    ensures CallInv(ThreadStep(s, se), c)
  {
    var g, gen := s.calls[c].stage, s.calls[se.t].stage.gen;
    if OnSocket(g) && g.gen == gen { OnItsSocketStays(s.socks[gen], se, c, g); }
    CallFrame(s, ThreadStep(s, se), c);
  }

  lemma ThreadKeepsOwn(s: System, se: S.Event)
    requires Enabled(s, Thread(se)) && CallInv(s, se.t)
    ensures CallInv(ThreadStep(s, se), se.t)
  {
    var g := s.calls[se.t].stage;
    if !Ends(se) || g.Answered? {
      OwnStep(s.socks[g.gen], se, g);
      CallFrame(s, ThreadStep(s, se), se.t);
    }
  }

  lemma SpendKeepsCall(s: System, c: CallId, e: Epoch, fault: bool, d: CallId)
    requires StageOf(s, c).Holding? && ChainInv(s.db) && d in s.calls && CallInv(s, d)
    ensures CallInv(SpendStep(s, c, e, fault), d)
  {
    var call := s.calls[c];
    SpendPersists(s.db, call.sid, call.host, e);
    if d != c { CallFrame(s, SpendStep(s, c, e, fault), d); }
  }

  lemma OtherKeepsCall(cfg: Config, s: System, x: Txn, c: CallId)
    requires ChainInv(s.db) && c in s.calls && CallInv(s, c)
    ensures CallInv(s.(db := Apply(cfg, s.db, x)), c)
  {
    Retry.ApplyPersists(cfg, s.db, x);
    CallFrame(s, s.(db := Apply(cfg, s.db, x)), c);
  }

  /** The steps that only move one call on: accept, find, reserve, finish. */
  lemma MoveKeepsCall(cfg: Config, s: System, ev: Event, c: CallId)
    requires ev.Accept? || ev.Find? || ev.Reserve? || ev.Finish?
    requires Enabled(s, ev) && Ready(s, ev) && c in Step(cfg, s, ev).calls && (c in s.calls ==> CallInv(s, c))
    ensures CallInv(Step(cfg, s, ev), c)
  {}

  lemma CallStep(cfg: Config, s: System, ev: Event, c: CallId)
    requires Enabled(s, ev) && Ready(s, ev) && ChainInv(s.db)
    requires c in Step(cfg, s, ev).calls && (c in s.calls ==> CallInv(s, c))
    ensures CallInv(Step(cfg, s, ev), c)
  {
    match ev
    case Directory(de) => DirectoryKeepsCall(s, de, c);
    case Reader(gen, se) => ReaderKeepsCall(s, gen, se, Step(cfg, s, ev), c);
    case Thread(se) => if c == se.t { ThreadKeepsOwn(s, se); } else { ThreadKeepsOther(s, se, c); }
    case Spend(d, e, fault) => SpendKeepsCall(s, d, e, fault, c);
    case Other(x) => OtherKeepsCall(cfg, s, x, c);
    case Accept(_, _, _) => MoveKeepsCall(cfg, s, ev, c);
    case Find(_) => MoveKeepsCall(cfg, s, ev, c);
    case Reserve(_) => MoveKeepsCall(cfg, s, ev, c);
    case Finish(_) => MoveKeepsCall(cfg, s, ev, c);
  }

  // ---- two calls ----

  /** Only a spend burns, and only a finish answers. */
  lemma Settles(cfg: Config, s: System, ev: Event, c: CallId)
    requires Enabled(s, ev) && c in Step(cfg, s, ev).calls
    requires (ev.Spend? || ev.Finish?) ==> ev.call != c
    ensures var y := Step(cfg, s, ev).calls[c];
      Burned(y.stage) ==> c in s.calls && y == s.calls[c]
  {}

  lemma SpendApart(s: System, c: CallId, e: Epoch, fault: bool, d: CallId)
    requires StageOf(s, c).Holding? && d in s.calls && CallInv(s, d) && c != d
    ensures var s' := SpendStep(s, c, e, fault); Apart(s'.calls[c], s'.calls[d]) && Apart(s'.calls[d], s'.calls[c])
  {}

  lemma FinishApart(s: System, c: CallId, d: CallId)
    requires Enabled(s, Finish(c)) && d in s.calls && c != d && CallInv(s, d)
    requires Apart(s.calls[c], s.calls[d]) && Apart(s.calls[d], s.calls[c])
    ensures var s' := FinishStep(s, c); Apart(s'.calls[c], s'.calls[d]) && Apart(s'.calls[d], s'.calls[c])
  {}

  lemma ApartStep(cfg: Config, s: System, ev: Event, c: CallId, d: CallId)
    requires Enabled(s, ev) && c != d && c in Step(cfg, s, ev).calls && d in Step(cfg, s, ev).calls
    requires c in s.calls ==> CallInv(s, c)
    requires d in s.calls ==> CallInv(s, d)
    requires c in s.calls && d in s.calls ==> Apart(s.calls[c], s.calls[d]) && Apart(s.calls[d], s.calls[c])
    ensures Apart(Step(cfg, s, ev).calls[c], Step(cfg, s, ev).calls[d])
  {
    if (ev.Spend? || ev.Finish?) && ev.call == c {
      if ev.Spend? { SpendApart(s, c, ev.epoch, ev.fault, d); } else { FinishApart(s, c, d); }
    } else if (ev.Spend? || ev.Finish?) && ev.call == d {
      if ev.Spend? { SpendApart(s, d, ev.epoch, ev.fault, c); } else { FinishApart(s, d, c); }
    } else {
      Settles(cfg, s, ev, c);
      Settles(cfg, s, ev, d);
    }
  }

  // ---- together ----

  ghost predicate Inv(s: System) { PartsInv(s) && ChainInv(s.db) && CallsInv(s) && ApartInv(s) }

  lemma ChainStep(cfg: Config, s: System, ev: Event)
    requires ChainInv(s.db)
    ensures ChainInv(Step(cfg, s, ev).db)
  {
    if Enabled(s, ev) {
      if ev.Other? {
        Retry.ApplyPersists(cfg, s.db, ev.txn);
      } else if ev.Spend? {
        SpendPersists(s.db, s.calls[ev.call].sid, s.calls[ev.call].host, ev.epoch);
      }
    }
  }

  lemma CallsStep(cfg: Config, s: System, ev: Event)
    requires Enabled(s, ev) && Ready(s, ev) && ChainInv(s.db) && CallsInv(s) && ApartInv(s)
    ensures CallsInv(Step(cfg, s, ev)) && ApartInv(Step(cfg, s, ev))
  {
    var s' := Step(cfg, s, ev);
    forall c | c in s'.calls ensures CallInv(s', c) {
      CallStep(cfg, s, ev, c);
    }
    forall c, d | c in s'.calls && d in s'.calls && c != d ensures Apart(s'.calls[c], s'.calls[d]) {
      ApartStep(cfg, s, ev, c, d);
    }
  }

  lemma InvStep(cfg: Config, s: System, ev: Event)
    requires Inv(s)
    ensures Inv(Step(cfg, s, ev))
  {
    PartsStep(cfg, s, ev);
    ChainStep(cfg, s, ev);
    if Enabled(s, ev) {
      PartsReady(s, ev);
      CallsStep(cfg, s, ev);
    }
  }

  lemma {:induction false} InvAlways(cfg: Config, evs: seq<Event>)
    ensures Inv(Run(cfg, evs))
    decreases |evs|
  {
    if evs != [] {
      InvAlways(cfg, evs[..|evs| - 1]);
      InvStep(cfg, Run(cfg, evs[..|evs| - 1]), evs[|evs| - 1]);
    }
  }

  // ---- what callers are promised ----

  /** While a call burns its token and until it ends, its guard is one of the live guards of its socket. */
  lemma GuardHeldAcrossSpend(cfg: Config, evs: seq<Event>, c: CallId)
    requires var g := StageOf(Run(cfg, evs), c); g.Holding? || g.TurnedDown? || g.Dispatched?
    ensures var s := Run(cfg, evs);
      StageOf(s, c).gen in s.socks && c in S.Guards(s.socks[StageOf(s, c).gen])
  {
    InvAlways(cfg, evs);
    assert CallInv(Run(cfg, evs), c);
  }

  /**
   * Who answers: in every run, an answered call carries a Done frame that was read from the socket of a
   * handler authenticated as the call's host, and that host is the one its token is bound to.
   */
  lemma AnswererIsBoundHost(cfg: Config, evs: seq<Event>, c: CallId)
    requires StageOf(Run(cfg, evs), c).Answered?
    ensures var s := Run(cfg, evs);
      var call := s.calls[c];
      && call.stage.gen in s.socks && (call.stage.id, call.stage.resp) in s.socks[call.stage.gen].frames
      && OwnedBy(s.dir, call.stage.gen, call.host)
      && call.sid in s.db.spendHost && s.db.spendHost[call.sid] == call.host
  {
    InvAlways(cfg, evs);
    assert CallInv(Run(cfg, evs), c);
  }

  /** No two calls are answered for one token, and no two for one job of a socket. */
  lemma OneAnswerEach(cfg: Config, evs: seq<Event>, c: CallId, d: CallId)
    requires StageOf(Run(cfg, evs), c).Answered? && StageOf(Run(cfg, evs), d).Answered?
    requires var x, y := Run(cfg, evs).calls[c], Run(cfg, evs).calls[d];
      x.sid == y.sid || (x.stage.gen == y.stage.gen && x.stage.id == y.stage.id)
    ensures c == d
  {
    InvAlways(cfg, evs);
  }

  // ---- an exchange from connect to answer ----

  lemma Play(cfg: Config, evs: seq<Event>, ev: Event) returns (more: seq<Event>)
    ensures more == evs + [ev] && Run(cfg, more) == Step(cfg, Run(cfg, evs), ev)
  {
    more := evs + [ev];
    assert more[..|more| - 1] == evs;
  }

  /** A registered ACTIVE host and one issued unit. */
  lemma StoreIsStocked(cfg: Config, sid: SpendId, host: HostAccount, addr: string, e: Epoch) returns (evs: seq<Event>)
    ensures var s := Run(cfg, evs);
      && s.dir == D.EMPTY && s.socks == map[] && s.calls == map[]
      && Exec.ResolveActiveHost(s.db, host).Some? && SpendOutcomeOf(s.db, sid, e).Spent?
  {
    evs := Play(cfg, [], Other(THost(host, HostEntry(true, addr))));
    evs := Play(cfg, evs, Other(TBump(e, 1)));
  }

  /** A handler of `host` connects, draws generation 0 and is listed. */
  lemma HostConnects(cfg: Config, start: seq<Event>, host: HostAccount) returns (evs: seq<Event>)
    requires var s := Run(cfg, start); s.dir == D.EMPTY && s.socks == map[] && s.calls == map[]
    ensures var s, s' := Run(cfg, start), Run(cfg, evs);
      s'.dir.sockets == map[host := 0] && s'.socks == map[0 := S.FRESH] && s'.calls == map[] && s'.db == s.db
  {
    evs := Play(cfg, start, Directory(D.Connect(1, host)));
    assert Run(cfg, evs).dir.handlers == map[1 := D.Handler(host, D.Authenticated)];
    evs := Play(cfg, evs, Directory(D.Draw(1)));
    assert Run(cfg, evs).dir.handlers == map[1 := D.Handler(host, D.Numbered(0))];
    evs := Play(cfg, evs, Directory(D.Insert(1)));
  }

  /** A call finds the socket and reserves a slot. */
  lemma CallReserves(cfg: Config, start: seq<Event>, sid: SpendId, host: HostAccount) returns (evs: seq<Event>)
    requires var s := Run(cfg, start);
      && s.dir.sockets == map[host := 0] && s.socks == map[0 := S.FRESH] && s.calls == map[]
      && Exec.ResolveActiveHost(s.db, host).Some?
    ensures var s, s' := Run(cfg, start), Run(cfg, evs);
      && s'.db == s.db && s'.calls == map[0 := Call(sid, host, Holding(0))]
      && s'.socks.Keys == {0} && s'.socks[0].threads == map[0 := S.Guarded] && s'.socks[0].nextId == 0
      && s'.socks[0].pending == map[] && s'.socks[0].chan == map[]
  {
    evs := Play(cfg, start, Accept(0, sid, host));
    evs := Play(cfg, evs, Find(0));
    assert Run(cfg, evs).calls == map[0 := Call(sid, host, Reserving(0))];
    evs := Play(cfg, evs, Thread(S.Load(0)));
    assert Run(cfg, evs).socks[0].threads == map[0 := S.Loaded(0, 0, 0)];
    evs := Play(cfg, evs, Thread(S.Cas(0, false)));
    assert Run(cfg, evs).socks[0].threads == map[0 := S.Guarded];
    evs := Play(cfg, evs, Reserve(0));
  }

  /** The call burns its token, dispatches the job, and the frame comes back. */
  lemma CallIsServed(cfg: Config, start: seq<Event>, sid: SpendId, host: HostAccount, e: Epoch, resp: S.Resp)
    returns (evs: seq<Event>)
    requires var s := Run(cfg, start);
      && s.calls == map[0 := Call(sid, host, Holding(0))] && SpendOutcomeOf(s.db, sid, e).Spent?
      && s.socks.Keys == {0} && s.socks[0].threads == map[0 := S.Guarded] && s.socks[0].nextId == 0
      && s.socks[0].pending == map[] && s.socks[0].chan == map[]
    ensures var s' := Run(cfg, evs); s'.calls == map[0 := Call(sid, host, Answered(0, 0, resp))]
  {
    evs := Play(cfg, start, Spend(0, e, false));
    var calls := map[0 := Call(sid, host, Dispatched(0))];
    assert Run(cfg, evs).calls == calls && Run(cfg, evs).socks == Run(cfg, start).socks;
    evs := JobGoesOut(cfg, evs, calls);
    evs := FrameArrives(cfg, evs, calls, resp);
    evs := Play(cfg, evs, Finish(0));
  }

  lemma JobGoesOut(cfg: Config, start: seq<Event>, calls: map<CallId, Call>) returns (evs: seq<Event>)
    requires var s := Run(cfg, start);
      && s.calls == calls && 0 in calls && calls[0].stage == Dispatched(0)
      && 0 in s.socks && s.socks[0].threads == map[0 := S.Guarded] && s.socks[0].nextId == 0
      && s.socks[0].pending == map[]
    ensures var s' := Run(cfg, evs);
      && s'.calls == calls && 0 in s'.socks
      && s'.socks[0].threads == map[0 := S.Waiting(0)] && s'.socks[0].pending == map[0 := 0]
  {
    evs := Play(cfg, start, Thread(S.Draw(0)));
    assert Run(cfg, evs).socks[0].threads == map[0 := S.Drawn(0)];
    evs := Play(cfg, evs, Thread(S.Enlist(0)));
  }

  lemma FrameArrives(cfg: Config, start: seq<Event>, calls: map<CallId, Call>, resp: S.Resp) returns (evs: seq<Event>)
    requires var s := Run(cfg, start);
      && s.calls == calls && 0 in calls && calls[0].stage == Dispatched(0)
      && 0 in s.socks && s.socks[0].threads == map[0 := S.Waiting(0)] && s.socks[0].pending == map[0 := 0]
    ensures var s' := Run(cfg, evs);
      s'.calls == calls && 0 in s'.socks && s'.socks[0].threads == map[0 := S.Answered(0, resp)]
  {
    evs := Play(cfg, start, Reader(0, S.DoneFrame(0, resp, true)));
    assert Run(cfg, evs).socks[0].chan[0] == S.Sent(resp);
    evs := Play(cfg, evs, Thread(S.Collect(0)));
  }

  /** Any response can come back, for any host, token and epoch with one issued unit. */
  lemma CallCanBeAnswered(cfg: Config, sid: SpendId, host: HostAccount, addr: string, e: Epoch, resp: S.Resp)
    returns (evs: seq<Event>)
    ensures var s := Run(cfg, evs); 0 in s.calls && s.calls[0] == Call(sid, host, Answered(0, 0, resp))
  {
    evs := StoreIsStocked(cfg, sid, host, addr, e);
    evs := HostConnects(cfg, evs, host);
    evs := CallReserves(cfg, evs, sid, host);
    evs := CallIsServed(cfg, evs, sid, host, e, resp);
  }

  // ---- a full socket costs nothing ----

  /** The call was turned away by its socket, or is over. */
  ghost predicate TurnedAway(s: System, c: CallId) {
    && c in s.calls
    && (|| s.calls[c].stage.Over?
        || (&& s.calls[c].stage.Reserving? && s.calls[c].stage.gen in s.socks
            && S.PcOf(s.socks[s.calls[c].stage.gen], c).TurnedAway?))
  }

  lemma TurnedAwayStep(cfg: Config, s: System, ev: Event, c: CallId)
    requires TurnedAway(s, c) && s.dir.next !in s.socks
    ensures TurnedAway(Step(cfg, s, ev), c)
  {
    var g := s.calls[c].stage;
    if Enabled(s, ev) && g.Reserving? {
      if ev.Reader? && ev.gen == g.gen {
        OthersLeaveCall(s.socks[g.gen], ev.se, c);
      } else if ev.Thread? && ev.se.t != c {
        OthersLeaveCall(s.socks[g.gen], ev.se, c);
      }
    }
  }

  /** A call that a full socket turned away never burns its token, however the run goes on. */
  lemma {:induction false} TurnedAwayNeverBurns(cfg: Config, evs: seq<Event>, n: nat, c: CallId)
    requires n <= |evs| && TurnedAway(Run(cfg, evs[..n]), c)
    ensures c in Run(cfg, evs).calls && !Burned(Run(cfg, evs).calls[c].stage)
    ensures TurnedAway(Run(cfg, evs), c)
    decreases |evs|
  {
    if n == |evs| {
      assert evs[..n] == evs;
    } else {
      var pre := evs[..|evs| - 1];
      assert pre[..n] == evs[..n];
      TurnedAwayNeverBurns(cfg, pre, n, c);
      InvAlways(cfg, pre);
      NextIsNew(Run(cfg, pre));
      TurnedAwayStep(cfg, Run(cfg, pre), evs[|evs| - 1], c);
    }
  }

  lemma NextIsNew(s: System)
    requires PartsInv(s)
    ensures s.dir.next !in s.socks
  {}

  // ---- one call, start to finish ----

  /** `reserve_tunnel`: `sock` is what the directory lists for the host; `closed` says its writer is gone. */
  method ReserveTunnel(sock: S.HostSocket?, closed: bool, spurious: nat, ghost t: S.ThreadId)
    returns (r: Exec.Reservation)
    requires sock != null ==> sock.Valid() && sock.At(t, S.Idle)
    modifies if sock == null then {} else {sock}
    ensures sock != null ==> sock.Valid() && old(sock.trace) <= sock.trace
    ensures r == Exec.NoSocket <==> sock == null || closed
    ensures r == Exec.AtCapacity <==> sock != null && !closed && |S.Guards(S.Run(old(sock.trace)))| == 16
    ensures r == Exec.Reserved ==> sock.At(t, S.Guarded) && sock.inflight == old(sock.inflight) + 1
    ensures r != Exec.Reserved && sock != null ==> sock.inflight == old(sock.inflight)
  {
    if sock == null || closed { return Exec.NoSocket; }
    S.CountAlways(sock.trace);
    var ok := sock.TryReserve(spurious, t);
    return if ok then Exec.Reserved else Exec.AtCapacity;
  }

  /** Reserve, redeem and give the slot back, for a call that the host does not get to answer. */
  method ReserveAndRedeem(cfg: Config, broker: Exec.Broker, sock: S.HostSocket?, closed: bool, spurious: nat,
                          ghost t: S.ThreadId, sid: SpendId, host: HostAccount, between: seq<Txn>, env: Exec.ExecEnv)
    returns (reply: Exec.ExecReply)
    requires broker.store.Valid() && (sock != null ==> sock.Valid() && sock.At(t, S.Idle))
    modifies broker.store, if sock == null then {} else {sock}
    ensures broker.store.Valid() && (sock != null ==> sock.Valid())
    // a host with sixteen jobs in flight is no host, and the token is not burned by this call
    ensures sock != null && !closed && |S.Guards(S.Run(old(sock.trace)))| == 16 ==>
              && (reply == Exec.NoHost || reply == Exec.TokenInvalid || reply == Exec.Internal)
              && broker.store.db == ApplyAll(cfg, old(broker.store.db), between)
    // on every way out the slot is free again
    ensures sock != null ==> sock.inflight == old(sock.inflight)
  {
    var r := ReserveTunnel(sock, closed, spurious, t);
    ghost var full := env.(reservation := r);
    Exec.ReplyExactly(broker.store.db, ApplyAll(cfg, broker.store.db, between), sid, host, full);
    reply := broker.Exec(cfg, sid, host, between, env.(reservation := r));
    if r == Exec.Reserved {
      sock.Release(t);
    }
  }
}
