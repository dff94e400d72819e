/** The `/v1/issue` handler, run start to finish by one request. */
module Issuer {
  import opened Prelude
  import opened Tables
  import opened Idempotency
  import opened Economy
  import IssueOnce
  import opened DurableStore

  type Blinded = nat

  /** An authenticated, fresh, well-formed issue request. */
  datatype IssueRequest = IssueRequest(key: RequestKey, hash: BatchHash, blinded: seq<Blinded>)

  /** Which of the request's storage calls fail. */
  datatype Faults = Faults(debit: bool, bump: bool, refund: bool)

  ghost predicate AllSigned(sign: Blinded -> Option<Signature>, blinded: seq<Blinded>, sigs: Response) {
    |sigs| == |blinded| && forall i :: 0 <= i < |sigs| ==> sign(blinded[i]) == Some(sigs[i])
  }

  /** The signatures of the longest prefix of the batch that can be signed. */
  function SignedPrefix(sign: Blinded -> Option<Signature>, blinded: seq<Blinded>): (sigs: Response)
    ensures |sigs| <= |blinded|
  {
    if blinded == [] then []
    else match sign(blinded[0])
      case None => []
      case Some(sig) => [sig] + SignedPrefix(sign, blinded[1..])
  }

  predicate Signable(sign: Blinded -> Option<Signature>, blinded: seq<Blinded>) {
    forall i :: 0 <= i < |blinded| ==> sign(blinded[i]).Some?
  }

  lemma {:induction false} PrefixMeaning(sign: Blinded -> Option<Signature>, blinded: seq<Blinded>)
    ensures var sigs := SignedPrefix(sign, blinded);
      && AllSigned(sign, blinded[..|sigs|], sigs)
      && (|sigs| < |blinded| ==> sign(blinded[|sigs|]).None?)
      && (|sigs| == |blinded| <==> Signable(sign, blinded))
  {
    if blinded != [] && sign(blinded[0]).Some? {
      PrefixMeaning(sign, blinded[1..]);
      assert forall i :: 0 < i < |blinded| ==> blinded[i] == blinded[1..][i - 1];
      assert forall i :: 0 <= i < |blinded[1..]| ==> blinded[1..][i] == blinded[i + 1];
    }
  }

  lemma {:induction false} PrefixSnoc(sign: Blinded -> Option<Signature>, blinded: seq<Blinded>, i: nat)
    requires i < |blinded| && |SignedPrefix(sign, blinded[..i])| == i
    ensures sign(blinded[i]).None? ==> SignedPrefix(sign, blinded) == SignedPrefix(sign, blinded[..i])
    ensures sign(blinded[i]).Some? ==>
      SignedPrefix(sign, blinded[..i + 1]) == SignedPrefix(sign, blinded[..i]) + [sign(blinded[i]).value]
    decreases i
  {
    if i == 0 {
      assert blinded[..1][1..] == [];
    } else {
      assert blinded[..i][1..] == blinded[1..][..i - 1];
      assert blinded[..i + 1][1..] == blinded[1..][..i];
      PrefixSnoc(sign, blinded[1..], i - 1);
    }
  }

  /** Sign in order, stopping at the first failure. */
  method SignBatch(blinded: seq<Blinded>, sign: Blinded -> Option<Signature>)
    returns (sigs: Response, complete: bool)
    ensures sigs == SignedPrefix(sign, blinded)
    ensures complete <==> Signable(sign, blinded)
    ensures AllSigned(sign, blinded[..|sigs|], sigs)
    ensures !complete ==> |sigs| < |blinded| && sign(blinded[|sigs|]).None?
  {
    sigs := [];
    PrefixMeaning(sign, blinded);
    var i := 0;
    while i < |blinded|
      invariant 0 <= i <= |blinded| && |sigs| == i
      invariant sigs == SignedPrefix(sign, blinded[..i])
    {
      PrefixSnoc(sign, blinded, i);
      match sign(blinded[i]) {
        case Some(sig) => sigs := sigs + [sig];
        case None => return sigs, false;
      }
      i := i + 1;
    }
    assert blinded[..i] == blinded;
    complete := true;
  }

  // ---- what one request does ----

  datatype Issuance = Issuance(db: Tables, cache: Entries, reply: Reply)

  /** After the debit: count, sign, then store or undo. */
  function AfterDebit(db: Tables, cache: Entries, epoch: Epoch, req: IssueRequest,
                      sign: Blinded -> Option<Signature>, faults: Faults): Issuance {
    var n := |req.blinded|;
    var counted := if faults.bump then db else BumpIssued(db, epoch, n);
    var sigs := SignedPrefix(sign, req.blinded);
    if |sigs| == n then Issuance(counted, cache[req.key := Done(req.hash, sigs)], Issued(sigs))
    else
      Issuance(if faults.refund then counted else CreditAccount(counted, req.key.account, n),
               cache - {req.key}, SigningFailed)
  }

  predicate Payable(db: Tables, req: IssueRequest, faults: Faults) {
    !faults.debit && CanPay(db, req.key.account, |req.blinded|)
  }

  function IssueOutcome(db: Tables, cache: Entries, epoch: Epoch, req: IssueRequest,
                        sign: Blinded -> Option<Signature>, faults: Faults): Issuance {
    match BeginOutcomeOf(cache, req.key, req.hash)
    case Replay(r) => Issuance(db, cache, Replayed(r))
    case Conflict => Issuance(db, cache, KeyConflict)
    case InFlight => Issuance(db, cache, Concurrent)
    case Reserved =>
      if !Payable(db, req, faults) then Issuance(db, cache, InsufficientCredits)
      else
        AfterDebit(DebitAccount(db, req.key.account, |req.blinded|), AfterBegin(cache, req.key, req.hash),
                   epoch, req, sign, faults)
  }

  class IssuerService {
    const store: Store
    const cache: IssueIdempotencyCache
    const epoch: Epoch

    constructor (s: Store, c: IssueIdempotencyCache, e: Epoch)
      ensures store == s && cache == c && epoch == e
    {
      store, cache, epoch := s, c, e;
    }

    ghost predicate Valid()
      reads this, store, cache
    {
      store.Valid()
    }

    method Issue(req: IssueRequest, sign: Blinded -> Option<Signature>, faults: Faults)
      returns (reply: Reply)
      requires Valid()
      modifies store, cache
      ensures Valid()
      ensures Issuance(store.db, cache.entries, reply)
           == IssueOutcome(old(store.db), old(cache.entries), epoch, req, sign, faults)
      // which reply: a fresh key that can pay and be signed is issued, and nothing else is
      ensures reply.Issued? <==>
                && req.key !in old(cache.entries) && Payable(old(store.db), req, faults)
                && Signable(sign, req.blinded)
      ensures reply.SigningFailed? <==>
                && req.key !in old(cache.entries) && Payable(old(store.db), req, faults)
                && !Signable(sign, req.blinded)
      ensures reply.InsufficientCredits? <==>
                req.key !in old(cache.entries) && !Payable(old(store.db), req, faults)
      ensures reply.Concurrent? <==>
                req.key in old(cache.entries) && old(cache.entries)[req.key] == Pending(req.hash)
      ensures reply.KeyConflict? <==>
                req.key in old(cache.entries) && old(cache.entries)[req.key].hash != req.hash
      ensures reply.Replayed? ==> old(cache.entries)[req.key] == Done(req.hash, reply.resp)
      // a key that is already known costs nothing and changes nothing
      ensures req.key in old(cache.entries) ==> store.db == old(store.db) && cache.entries == old(cache.entries)
      // an answered request is debited once, counted once, and replayable
      ensures reply.Issued? ==>
                && AllSigned(sign, req.blinded, reply.resp)
                && cache.entries == old(cache.entries)[req.key := Done(req.hash, reply.resp)]
                && LedgerOf(store.db, req.key.account).balance
                   == LedgerOf(old(store.db), req.key.account).balance - |req.blinded|
      ensures (reply.Issued? || reply.SigningFailed?) && !faults.bump ==>
                CounterOf(store.db, epoch).issued == SatAdd(CounterOf(old(store.db), epoch).issued, |req.blinded|)
      ensures forall e :: e != epoch ==> CounterOf(store.db, e) == CounterOf(old(store.db), e)
      // a failed request leaves the key free, and the balance what it was unless the refund is dropped
      ensures !reply.Issued? ==> cache.entries == old(cache.entries)
      ensures reply.InsufficientCredits? ==> store.db == old(store.db)
      ensures reply.SigningFailed? && !faults.refund ==>
                LedgerOf(store.db, req.key.account).balance == LedgerOf(old(store.db), req.key.account).balance
      // nobody else's account moves
      ensures forall a :: a != req.key.account ==> LedgerOf(store.db, a) == LedgerOf(old(store.db), a)
    {
      PrefixMeaning(sign, req.blinded);
      var outcome := cache.Begin(req.key, req.hash);
      match outcome {
        case Replay(r) => return Replayed(r);
        case Conflict => return KeyConflict;
        case InFlight => return Concurrent;
        case Reserved =>
      }
      forall done { ReservationLeavesNoTrace(old(cache.entries), req.key, req.hash, done); }
      BalanceFits(store.db, req.key.account);
      var paid := store.Debit(req.key.account, |req.blinded|, faults.debit);
      if !paid {
        cache.Release(req.key);
        return InsufficientCredits;
      }
      reply := CountAndSign(req, sign, faults);
    }

    /** The rest of the handler, after the debit: count, sign, then store or undo. */
    method CountAndSign(req: IssueRequest, sign: Blinded -> Option<Signature>, faults: Faults)
      returns (reply: Reply)
      requires Valid()
      modifies store, cache
      ensures Valid()
      ensures Issuance(store.db, cache.entries, reply)
           == AfterDebit(old(store.db), old(cache.entries), epoch, req, sign, faults)
      ensures reply.Issued? <==> Signable(sign, req.blinded)
      ensures reply.Issued? ==> AllSigned(sign, req.blinded, reply.resp)
      ensures !reply.Issued? ==> reply.SigningFailed?
    {
      PrefixMeaning(sign, req.blinded);
      var _ := store.BumpIssuedCounter(epoch, |req.blinded|, faults.bump);
      var sigs, complete := SignBatch(req.blinded, sign);
      assert req.blinded[..|req.blinded|] == req.blinded;
      if !complete {
        store.Grant(req.key.account, |req.blinded|, faults.refund);
        cache.Release(req.key);
        return SigningFailed;
      }
      cache.Store(req.key, req.hash, sigs);
      return Issued(sigs);
    }
  }

  // ---- the handler is a task of the economy that nobody interrupts ----

  ghost function Steps(cfg: Config, m: TokenModel, s: State, evs: seq<Event>): State
    decreases |evs|
  {
    if evs == [] then s else Steps(cfg, m, Step(cfg, m, s, evs[0]), evs[1..])
  }

  function SignEvents(id: TaskId, sign: Blinded -> Option<Signature>, blinded: seq<Blinded>): seq<Event> {
    if blinded == [] then [] else [Sign(id, sign(blinded[0]))] + SignEvents(id, sign, blinded[1..])
  }

  /** Everything the handler of `id` can do, in order; what does not apply is not enabled. */
  function HandlerEvents(id: TaskId, req: IssueRequest, sign: Blinded -> Option<Signature>, faults: Faults): seq<Event>
  {
    Opening(id, faults) + SignEvents(id, sign, req.blinded) + Closing(id, faults)
  }

  function Opening(id: TaskId, faults: Faults): seq<Event> {
    [Begin(id), Debit(id, faults.debit), ReleaseUnpaid(id), Observe(id, faults.bump)]
  }

  function Closing(id: TaskId, faults: Faults): seq<Event> {
    [StoreResponse(id), Refund(id, faults.refund), ReleaseFailed(id)]
  }

  lemma {:induction false} StepsAppend(cfg: Config, m: TokenModel, s: State, a: seq<Event>, b: seq<Event>)
    ensures Steps(cfg, m, s, a + b) == Steps(cfg, m, Steps(cfg, m, s, a), b)
    decreases |a|
  {
    if a == [] {
      assert a + b == b;
    } else {
      assert (a + b)[1..] == a[1..] + b;
      StepsAppend(cfg, m, Step(cfg, m, s, a[0]), a[1..], b);
    }
  }

  /** Steps taken from a reachable state continue its run. */
  lemma {:induction false} StepsContinueRun(cfg: Config, m: TokenModel, c: Served, evs: seq<Event>, more: seq<Event>)
    ensures Steps(cfg, m, Run(cfg, m, c, evs), more) == Run(cfg, m, c, evs + more)
    decreases |more|
  {
    if more == [] {
      assert evs + more == evs;
    } else {
      IssueOnce.RunSnoc(cfg, m, c, evs, more[0]);
      StepsContinueRun(cfg, m, c, evs + [more[0]], more[1..]);
      assert evs + [more[0]] + more[1..] == evs + more;
    }
  }

  ghost predicate AtPhase(s: State, id: TaskId, req: IssueRequest, p: Phase) {
    id in s.tasks && s.tasks[id] == Task(req.key, req.hash, |req.blinded|, p)
  }

  /** A finished task takes no more steps. */
  lemma {:induction false} FinishedStays(cfg: Config, m: TokenModel, s: State, id: TaskId, evs: seq<Event>)
    requires id in s.tasks && s.tasks[id].phase.Finished?
    requires forall i :: 0 <= i < |evs| ==> MovesOnly(id, evs[i])
    ensures Steps(cfg, m, s, evs) == s
    decreases |evs|
  {
    if evs != [] {
      assert MovesOnly(id, evs[0]);
      FinishedStays(cfg, m, s, id, evs[1..]);
    }
  }

  predicate MovesOnly(id: TaskId, ev: Event) {
    || ev == Begin(id) || ev == ReleaseUnpaid(id) || ev == StoreResponse(id) || ev == ReleaseFailed(id)
    || (ev.Debit? && ev.id == id) || (ev.Observe? && ev.id == id) || (ev.Sign? && ev.id == id)
    || (ev.Refund? && ev.id == id)
  }

  lemma {:induction false} NoMoreSigning(cfg: Config, m: TokenModel, s: State, id: TaskId,
                                         sign: Blinded -> Option<Signature>, rest: seq<Blinded>)
    requires id in s.tasks && s.tasks[id].phase.AtRefund?
    ensures Steps(cfg, m, s, SignEvents(id, sign, rest)) == s
    decreases |rest|
  {
    if rest != [] {
      var evs := SignEvents(id, sign, rest);
      assert evs[1..] == SignEvents(id, sign, rest[1..]) && Step(cfg, m, s, evs[0]) == s;
      NoMoreSigning(cfg, m, s, id, sign, rest[1..]);
    }
  }

  lemma OneSignature(cfg: Config, m: TokenModel, s: State, id: TaskId, req: IssueRequest,
                     sigs: Response, r: Option<Signature>)
    requires AtPhase(s, id, req, AtSign(sigs)) && |sigs| < |req.blinded|
    ensures var s' := Step(cfg, m, s, Sign(id, r));
      && s'.db == s.db && s'.cache == s.cache && s'.epoch == s.epoch
      && AtPhase(s', id, req, if r.None? then AtRefund else AtSign(sigs + [r.value]))
  {}

  lemma {:induction false} SigningSteps(cfg: Config, m: TokenModel, s: State, id: TaskId, req: IssueRequest,
                                        sign: Blinded -> Option<Signature>, rest: seq<Blinded>, sigs: Response)
    requires AtPhase(s, id, req, AtSign(sigs)) && |sigs| + |rest| == |req.blinded|
    ensures var s', got := Steps(cfg, m, s, SignEvents(id, sign, rest)), SignedPrefix(sign, rest);
      && s'.db == s.db && s'.cache == s.cache
      && AtPhase(s', id, req, if |got| == |rest| then AtSign(sigs + got) else AtRefund)
    decreases |rest|
  {
    if rest == [] {
      assert sigs + [] == sigs;
    } else {
      var evs, r := SignEvents(id, sign, rest), sign(rest[0]);
      var s1 := Step(cfg, m, s, evs[0]);
      assert evs[0] == Sign(id, r) && evs[1..] == SignEvents(id, sign, rest[1..]);
      OneSignature(cfg, m, s, id, req, sigs, r);
      if r.None? {
        NoMoreSigning(cfg, m, s1, id, sign, rest[1..]);
      } else {
        SigningSteps(cfg, m, s1, id, req, sign, rest[1..], sigs + [r.value]);
        Regroup(sigs, [r.value], SignedPrefix(sign, rest[1..]));
      }
    }
  }

  /** Unfold a fixed number of steps. */
  lemma StepsCons(cfg: Config, m: TokenModel, s: State, ev: Event, evs: seq<Event>)
    ensures Steps(cfg, m, s, [ev] + evs) == Steps(cfg, m, Step(cfg, m, s, ev), evs)
  {
    assert ([ev] + evs)[1..] == evs;
  }

  lemma OpeningSteps(cfg: Config, m: TokenModel, s: State, id: TaskId, req: IssueRequest, faults: Faults)
    requires AtPhase(s, id, req, AtBegin)
    ensures var s' := Steps(cfg, m, s, Opening(id, faults));
      if req.key in s.cache || !Payable(s.db, req, faults) then
        && id in s'.tasks && s'.tasks[id].phase.Finished?
        && forall sign :: Issuance(s'.db, s'.cache, s'.tasks[id].phase.reply)
                       == IssueOutcome(s.db, s.cache, s.epoch, req, sign, faults)
      else
        var paid := DebitAccount(s.db, req.key.account, |req.blinded|);
        && s'.db == (if faults.bump then paid else BumpIssued(paid, s.epoch, |req.blinded|))
        && s'.cache == AfterBegin(s.cache, req.key, req.hash)
        && AtPhase(s', id, req, AtSign([]))
  {
    var b, d, r, o := Begin(id), Debit(id, faults.debit), ReleaseUnpaid(id), Observe(id, faults.bump);
    assert [b, d, r, o] == [b] + ([d] + ([r] + ([o] + [])));
    var s1 := Step(cfg, m, s, b);
    var s2 := Step(cfg, m, s1, d);
    var s3 := Step(cfg, m, s2, r);
    StepsCons(cfg, m, s, b, [d] + ([r] + ([o] + [])));
    StepsCons(cfg, m, s1, d, [r] + ([o] + []));
    StepsCons(cfg, m, s2, r, [o] + []);
    StepsCons(cfg, m, s3, o, []);
    if req.key !in s.cache {
      assert s1 == BeginStep(s, id) && AtPhase(s1, id, req, AtDebit);
      assert s2 == DebitStep(s1, id, faults.debit);
      forall done { ReservationLeavesNoTrace(s.cache, req.key, req.hash, done); }
    }
  }

  lemma ClosingSteps(cfg: Config, m: TokenModel, s: State, id: TaskId, req: IssueRequest, faults: Faults)
    requires || (exists sigs :: |sigs| == |req.blinded| && AtPhase(s, id, req, AtSign(sigs)))
             || AtPhase(s, id, req, AtRefund)
    ensures var s' := Steps(cfg, m, s, Closing(id, faults));
      && id in s'.tasks
      && (if s.tasks[id].phase.AtSign? then
            && s'.db == s.db && s'.cache == s.cache[req.key := Done(req.hash, s.tasks[id].phase.sigs)]
            && s'.tasks[id].phase == Finished(Issued(s.tasks[id].phase.sigs))
          else
            && s'.db == (if faults.refund then s.db else CreditAccount(s.db, req.key.account, |req.blinded|))
            && s'.cache == s.cache - {req.key}
            && s'.tasks[id].phase == Finished(SigningFailed))
  {
    var p, r, f := StoreResponse(id), Refund(id, faults.refund), ReleaseFailed(id);
    assert [p, r, f] == [p] + ([r] + ([f] + []));
    var s1 := Step(cfg, m, s, p);
    var s2 := Step(cfg, m, s1, r);
    StepsCons(cfg, m, s, p, [r] + ([f] + []));
    StepsCons(cfg, m, s1, r, [f] + []);
    StepsCons(cfg, m, s2, f, []);
  }

  lemma {:induction false} SignEventsMove(id: TaskId, sign: Blinded -> Option<Signature>, blinded: seq<Blinded>)
    ensures forall i :: 0 <= i < |SignEvents(id, sign, blinded)| ==> MovesOnly(id, SignEvents(id, sign, blinded)[i])
  {
    if blinded != [] { SignEventsMove(id, sign, blinded[1..]); }
  }

  /** The method `Issue` does what the task does in a run of the economy in which nobody interferes. */
  lemma HandlerIsIssue(cfg: Config, m: TokenModel, s: State, id: TaskId, req: IssueRequest,
                       sign: Blinded -> Option<Signature>, faults: Faults)
    requires AtPhase(s, id, req, AtBegin)
    ensures var s' := Steps(cfg, m, s, HandlerEvents(id, req, sign, faults));
      && id in s'.tasks && s'.tasks[id].phase.Finished?
      && Issuance(s'.db, s'.cache, s'.tasks[id].phase.reply)
         == IssueOutcome(s.db, s.cache, s.epoch, req, sign, faults)
  {
    var a, b, d := Opening(id, faults), SignEvents(id, sign, req.blinded), Closing(id, faults);
    StepsAppend(cfg, m, s, a + b, d);
    StepsAppend(cfg, m, s, a, b);
    OpeningSteps(cfg, m, s, id, req, faults);
    if req.key in s.cache || !Payable(s.db, req, faults) {
      EndedEarly(cfg, m, Steps(cfg, m, s, a), id, req, sign, faults);
    } else {
      SignedAndClosed(cfg, m, Steps(cfg, m, s, a), id, req, sign, faults);
    }
  }

  lemma EndedEarly(cfg: Config, m: TokenModel, s: State, id: TaskId, req: IssueRequest,
                   sign: Blinded -> Option<Signature>, faults: Faults)
    requires id in s.tasks && s.tasks[id].phase.Finished?
    ensures Steps(cfg, m, Steps(cfg, m, s, SignEvents(id, sign, req.blinded)), Closing(id, faults)) == s
  {
    SignEventsMove(id, sign, req.blinded);
    FinishedStays(cfg, m, s, id, SignEvents(id, sign, req.blinded));
    FinishedStays(cfg, m, s, id, Closing(id, faults));
  }

  lemma SignedAndClosed(cfg: Config, m: TokenModel, s: State, id: TaskId, req: IssueRequest,
                        sign: Blinded -> Option<Signature>, faults: Faults)
    requires AtPhase(s, id, req, AtSign([]))
    ensures var s' := Steps(cfg, m, Steps(cfg, m, s, SignEvents(id, sign, req.blinded)), Closing(id, faults));
      && id in s'.tasks && s'.tasks[id].phase.Finished?
      && var sigs := SignedPrefix(sign, req.blinded);
         Issuance(s'.db, s'.cache, s'.tasks[id].phase.reply)
         == if |sigs| == |req.blinded| then Issuance(s.db, s.cache[req.key := Done(req.hash, sigs)], Issued(sigs))
            else Issuance(if faults.refund then s.db else CreditAccount(s.db, req.key.account, |req.blinded|),
                          s.cache - {req.key}, SigningFailed)
  {
    SigningSteps(cfg, m, s, id, req, sign, req.blinded, []);
    assert [] + SignedPrefix(sign, req.blinded) == SignedPrefix(sign, req.blinded);
    ClosingSteps(cfg, m, Steps(cfg, m, s, SignEvents(id, sign, req.blinded)), id, req, faults);
  }

  /** In any run, a request left to itself from its arrival on ends as `Issue` says. */
  lemma HandlerInRun(cfg: Config, m: TokenModel, c: Served, evs: seq<Event>, id: TaskId, req: IssueRequest,
                     sign: Blinded -> Option<Signature>, faults: Faults)
    requires AtPhase(Run(cfg, m, c, evs), id, req, AtBegin)
    ensures var s, s' := Run(cfg, m, c, evs), Run(cfg, m, c, evs + HandlerEvents(id, req, sign, faults));
      && id in s'.tasks && s'.tasks[id].phase.Finished?
      && Issuance(s'.db, s'.cache, s'.tasks[id].phase.reply)
         == IssueOutcome(s.db, s.cache, s.epoch, req, sign, faults)
  {
    StepsContinueRun(cfg, m, c, evs, HandlerEvents(id, req, sign, faults));
    HandlerIsIssue(cfg, m, Run(cfg, m, c, evs), id, req, sign, faults);
  }
}
