/**
 * Exactly-once issuance.  Within one process lifetime, and whatever duplicate and conflicting
 * requests interleave, one `(account, request_id)` is charged at most once net of refunds.
 */
module IssueOnce {
  import opened Prelude
  import opened Tables
  import opened Idempotency
  import opened Economy

  /** Between `Reserved` and the end of the handler. */
  predicate Holding(p: Phase) { !p.AtBegin? && !p.Finished? }

  /** Debited, and neither refunded nor answered yet. */
  predicate Charged(p: Phase) { p.AtObserve? || p.AtSign? || p.AtRefund? }

  ghost predicate Owns(s: State, k: RequestKey, id: TaskId) {
    && id in s.tasks
    && s.tasks[id].key == k
    && Holding(s.tasks[id].phase)
    && k in s.cache
    && s.cache[k] == Pending(s.tasks[id].hash)
  }

  /** Every holder is the registered owner of its key, and owners hold a pending entry. */
  ghost predicate OwnershipInv(s: State) {
    && (forall id :: id in s.tasks && Holding(s.tasks[id].phase) ==>
          s.tasks[id].key in s.log.owner && s.log.owner[s.tasks[id].key] == id)
    && (forall k :: k in s.log.owner ==> Owns(s, k, s.log.owner[k]))
    && (forall k :: k in s.cache && s.cache[k].Pending? ==> k in s.log.owner)
  }

  /** The completed cache entries are exactly the first stored responses. */
  ghost predicate ResponseInv(s: State) {
    && (forall k :: k in s.log.first <==> k in s.cache && s.cache[k].Done?)
    && (forall k :: k in s.log.first ==> s.cache[k] == s.log.first[k])
    && (forall id :: id in s.tasks ==> AnswerInv(s, s.tasks[id]))
  }

  ghost predicate AnswerInv(s: State, t: Task) {
    && (t.phase.AtSign? ==> |t.phase.sigs| <= t.amount)
    && (t.phase.Finished? && (t.phase.reply.Issued? || t.phase.reply.Replayed?) ==>
          && t.key in s.log.first
          && s.log.first[t.key] == Done(t.hash, t.phase.reply.resp)
          && (t.phase.reply.Issued? ==> |t.phase.reply.resp| == t.amount))
  }

  /** Is the latest debit of `k` outstanding or answered? */
  ghost function Standing(s: State, k: RequestKey): nat {
    if k in s.log.first then 1
    else if k in s.log.owner && s.log.owner[k] in s.tasks
            && Charged(s.tasks[s.log.owner[k]].phase) then 1
    else 0
  }

  ghost predicate ChargeInv(s: State) {
    forall k :: Get(s.log.net, k) == Get(s.log.dropped, k) + Standing(s, k)
  }

  ghost predicate IssueInv(s: State) { OwnershipInv(s) && ResponseInv(s) && ChargeInv(s) }

  // ---- preservation ----

  lemma ArriveKeeps(s: State, id: TaskId, t: Task, s': State)
    requires IssueInv(s) && id !in s.tasks && t.phase.AtBegin?
    requires s' == s.(tasks := s.tasks[id := t])
    ensures IssueInv(s')
  {
    forall k ensures Standing(s', k) == Standing(s, k) {}
  }

  /** A phase change that neither takes nor gives up the reservation. */
  lemma AdvanceKeeps(s: State, id: TaskId, p: Phase, s': State)
    requires OwnershipInv(s) && ResponseInv(s)
    requires id in s.tasks && Holding(s.tasks[id].phase) && Holding(p)
    requires p.AtSign? ==> |p.sigs| <= s.tasks[id].amount
    requires s'.tasks == Enter(s, id, p)
    requires s'.cache == s.cache && s'.log.owner == s.log.owner && s'.log.first == s.log.first
    ensures OwnershipInv(s') && ResponseInv(s')
  {
    forall k | k in s'.log.owner ensures Owns(s', k, s'.log.owner[k]) {
      assert Owns(s, k, s.log.owner[k]);
    }
  }

  lemma OwnerHasNoAnswer(s: State, id: TaskId)
    requires OwnershipInv(s) && ResponseInv(s) && id in s.tasks && Holding(s.tasks[id].phase)
    ensures Owns(s, s.tasks[id].key, id) && s.tasks[id].key !in s.log.first
  {
    assert Owns(s, s.tasks[id].key, s.log.owner[s.tasks[id].key]);
  }

  /** How an owner's phase change moves the standing charge of its key, and no other. */
  lemma StandingMoves(s: State, id: TaskId, p: Phase, s': State)
    requires OwnershipInv(s) && ResponseInv(s)
    requires id in s.tasks && Holding(s.tasks[id].phase) && Holding(p)
    requires s'.tasks == Enter(s, id, p)
    requires s'.log.owner == s.log.owner && s'.log.first == s.log.first
    ensures forall k :: k != s.tasks[id].key ==> Standing(s', k) == Standing(s, k)
    ensures Standing(s, s.tasks[id].key) == (if Charged(s.tasks[id].phase) then 1 else 0)
    ensures Standing(s', s.tasks[id].key) == (if Charged(p) then 1 else 0)
  {
    OwnerHasNoAnswer(s, id);
    forall k | k in s.log.owner && s.log.owner[k] == id ensures k == s.tasks[id].key {
      assert Owns(s, k, id);
    }
  }

  lemma ReserveKeeps(s: State, id: TaskId)
    requires IssueInv(s) && id in s.tasks && s.tasks[id].phase.AtBegin?
    requires s.tasks[id].key !in s.cache
    ensures IssueInv(BeginStep(s, id))
  {
    var s' := BeginStep(s, id);
    var key := s.tasks[id].key;
    assert key in s.log.owner ==> Owns(s, key, s.log.owner[key]);
    forall k | k in s'.log.owner ensures Owns(s', k, s'.log.owner[k]) {
      if k != key { assert Owns(s, k, s.log.owner[k]); }
    }
    forall k ensures Standing(s', k) == Standing(s, k) {
      if k in s.log.owner { assert Owns(s, k, s.log.owner[k]); }
    }
    forall i | i in s'.tasks ensures AnswerInv(s', s'.tasks[i]) {
      assert AnswerInv(s, s.tasks[i]);
    }
  }

  /** A duplicate or conflicting request is answered without touching anything else. */
  lemma AnswerKeeps(s: State, id: TaskId)
    requires IssueInv(s) && id in s.tasks && s.tasks[id].phase.AtBegin?
    requires s.tasks[id].key in s.cache
    ensures IssueInv(BeginStep(s, id))
  {
    var s' := BeginStep(s, id);
    assert s'.log == s.log && s'.cache == s.cache;
    forall k | k in s'.log.owner ensures Owns(s', k, s'.log.owner[k]) {
      assert Owns(s, k, s.log.owner[k]);
    }
    forall k ensures Standing(s', k) == Standing(s, k) {
      if k in s.log.owner { assert Owns(s, k, s.log.owner[k]); }
    }
    forall i | i in s'.tasks ensures AnswerInv(s', s'.tasks[i]) {
      assert AnswerInv(s, s.tasks[i]);
    }
  }

  lemma BeginKeeps(s: State, id: TaskId)
    requires IssueInv(s) && id in s.tasks && s.tasks[id].phase.AtBegin?
    ensures IssueInv(BeginStep(s, id))
  {
    if s.tasks[id].key in s.cache { AnswerKeeps(s, id); } else { ReserveKeeps(s, id); }
  }

  lemma DebitKeeps(s: State, id: TaskId, fault: bool)
    requires IssueInv(s) && id in s.tasks && s.tasks[id].phase.AtDebit?
    ensures IssueInv(DebitStep(s, id, fault))
  {
    var s' := DebitStep(s, id, fault);
    AdvanceKeeps(s, id, s'.tasks[id].phase, s');
    StandingMoves(s, id, s'.tasks[id].phase, s');
  }

  lemma ObserveKeeps(s: State, id: TaskId, fault: bool)
    requires IssueInv(s) && id in s.tasks && s.tasks[id].phase.AtObserve?
    ensures IssueInv(ObserveStep(s, id, fault))
  {
    var s' := ObserveStep(s, id, fault);
    AdvanceKeeps(s, id, s'.tasks[id].phase, s');
    StandingMoves(s, id, s'.tasks[id].phase, s');
  }

  lemma SignKeeps(s: State, id: TaskId, result: Option<Signature>)
    requires IssueInv(s) && id in s.tasks && s.tasks[id].phase.AtSign?
    requires |s.tasks[id].phase.sigs| < s.tasks[id].amount
    ensures IssueInv(SignStep(s, id, result))
  {
    var s' := SignStep(s, id, result);
    AdvanceKeeps(s, id, s'.tasks[id].phase, s');
    StandingMoves(s, id, s'.tasks[id].phase, s');
  }

  lemma RefundKeeps(s: State, id: TaskId, fault: bool)
    requires IssueInv(s) && id in s.tasks && s.tasks[id].phase.AtRefund?
    ensures IssueInv(RefundStep(s, id, fault))
  {
    var s' := RefundStep(s, id, fault);
    AdvanceKeeps(s, id, s'.tasks[id].phase, s');
    StandingMoves(s, id, s'.tasks[id].phase, s');
  }

  lemma ReleaseKeeps(s: State, id: TaskId, reply: Reply)
    requires IssueInv(s) && id in s.tasks
    requires s.tasks[id].phase.AtUnpaid? || s.tasks[id].phase.AtRelease?
    requires !reply.Issued? && !reply.Replayed?
    ensures IssueInv(ReleaseStep(s, id, reply))
  {
    var s' := ReleaseStep(s, id, reply);
    OwnerHasNoAnswer(s, id);
    forall k | k in s'.log.owner ensures Owns(s', k, s'.log.owner[k]) {
      assert Owns(s, k, s.log.owner[k]);
    }
    forall k ensures Standing(s', k) == Standing(s, k) {
      if k in s.log.owner { assert Owns(s, k, s.log.owner[k]); }
    }
    forall i | i in s'.tasks ensures AnswerInv(s', s'.tasks[i]) {
      assert AnswerInv(s, s.tasks[i]);
    }
  }

  lemma StoreKeeps(s: State, id: TaskId)
    requires IssueInv(s) && id in s.tasks && s.tasks[id].phase.AtSign?
    requires |s.tasks[id].phase.sigs| == s.tasks[id].amount
    ensures IssueInv(StoreStep(s, id))
  {
    OwnerHasNoAnswer(s, id);
    StoreOwnership(s, id);
    StoreResponses(s, id);
    StoreCharges(s, id);
  }

  lemma StoreOwnership(s: State, id: TaskId)
    requires OwnershipInv(s) && id in s.tasks && s.tasks[id].phase.AtSign?
    ensures OwnershipInv(StoreStep(s, id))
  {
    var s' := StoreStep(s, id);
    forall k | k in s'.log.owner ensures Owns(s', k, s'.log.owner[k]) {
      assert Owns(s, k, s.log.owner[k]);
    }
  }

  lemma StoreResponses(s: State, id: TaskId)
    requires ResponseInv(s) && id in s.tasks && s.tasks[id].phase.AtSign? && s.tasks[id].key !in s.log.first
    requires |s.tasks[id].phase.sigs| == s.tasks[id].amount
    ensures ResponseInv(StoreStep(s, id))
  {
    var s' := StoreStep(s, id);
    forall i | i in s'.tasks ensures AnswerInv(s', s'.tasks[i]) {
      assert AnswerInv(s, s.tasks[i]);
    }
  }

  lemma StoreCharges(s: State, id: TaskId)
    requires IssueInv(s) && id in s.tasks && s.tasks[id].phase.AtSign? && s.tasks[id].key !in s.log.first
    ensures ChargeInv(StoreStep(s, id))
  {
    var s' := StoreStep(s, id);
    forall k ensures Standing(s', k) == Standing(s, k) {
      if k in s.log.owner { assert Owns(s, k, s.log.owner[k]); }
    }
  }

  lemma FrameKeeps(s: State, s': State)
    requires IssueInv(s)
    requires s'.cache == s.cache && s'.tasks == s.tasks && s'.log == s.log
    ensures IssueInv(s')
  {
    forall k | k in s'.log.owner ensures Owns(s', k, s'.log.owner[k]) {
      assert Owns(s, k, s.log.owner[k]);
    }
    forall k ensures Standing(s', k) == Standing(s, k) {}
    forall id | id in s'.tasks ensures AnswerInv(s', s'.tasks[id]) {
      assert AnswerInv(s, s.tasks[id]);
    }
  }

  lemma IssueInvStep(cfg: Config, m: TokenModel, s: State, ev: Event)
    requires IssueInv(s)
    ensures IssueInv(Step(cfg, m, s, ev))
  {
    if Enabled(m, s, ev) {
      if ev.Restart? || ev.Unblind? || ev.Redeem? || ev.LegacyRedeem? || ev.Receipt? || ev.AdminGrant?
         || ev.Trial? || ev.HostUpdate? {
        OutsideKeeps(cfg, m, s, ev);
      } else {
        HandlerKeeps(cfg, m, s, ev);
      }
    }
  }

  lemma HandlerKeeps(cfg: Config, m: TokenModel, s: State, ev: Event)
    requires IssueInv(s) && Enabled(m, s, ev)
    requires ev.Arrive? || ev.Begin? || ev.Debit? || ev.ReleaseUnpaid? || ev.Observe? || ev.Sign?
             || ev.Refund? || ev.ReleaseFailed? || ev.StoreResponse?
    ensures IssueInv(Step(cfg, m, s, ev))
  {
    match ev
    case Arrive(id, key, hash, amount) =>
      ArriveKeeps(s, id, Task(key, hash, amount, AtBegin), Step(cfg, m, s, ev));
    case Begin(id) => BeginKeeps(s, id);
    case Debit(id, fault) => DebitKeeps(s, id, fault);
    case ReleaseUnpaid(id) => ReleaseKeeps(s, id, InsufficientCredits);
    case Observe(id, fault) => ObserveKeeps(s, id, fault);
    case Sign(id, result) => SignKeeps(s, id, result);
    case Refund(id, fault) => RefundKeeps(s, id, fault);
    case ReleaseFailed(id) => ReleaseKeeps(s, id, SigningFailed);
    case StoreResponse(id) => StoreKeeps(s, id);
  }

  lemma OutsideKeeps(cfg: Config, m: TokenModel, s: State, ev: Event)
    requires IssueInv(s) && Enabled(m, s, ev)
    requires ev.Restart? || ev.Unblind? || ev.Redeem? || ev.LegacyRedeem? || ev.Receipt? || ev.AdminGrant?
             || ev.Trial? || ev.HostUpdate?
    ensures IssueInv(Step(cfg, m, s, ev))
  {
    if !ev.Restart? {
      OutsideFrame(cfg, m, s, ev);
      FrameKeeps(s, Step(cfg, m, s, ev));
    }
  }

  lemma OutsideFrame(cfg: Config, m: TokenModel, s: State, ev: Event)
    requires ev.Unblind? || ev.Redeem? || ev.LegacyRedeem? || ev.Receipt? || ev.AdminGrant? || ev.Trial?
             || ev.HostUpdate?
    ensures var s' := Step(cfg, m, s, ev); s'.cache == s.cache && s'.tasks == s.tasks && s'.log == s.log
  {}

  lemma {:induction false} IssueInvAlways(cfg: Config, m: TokenModel, c: Served, evs: seq<Event>)
    ensures IssueInv(Run(cfg, m, c, evs))
    decreases |evs|
  {
    if evs != [] {
      IssueInvAlways(cfg, m, c, evs[..|evs| - 1]);
      IssueInvStep(cfg, m, Run(cfg, m, c, evs[..|evs| - 1]), evs[|evs| - 1]);
    }
  }

  // ---- what callers are promised ----

  predicate Answered(t: Task) {
    t.phase.Finished? && (t.phase.reply.Issued? || t.phase.reply.Replayed?)
  }

  /**
   * In every run, with any interleaving, the un-refunded debits of a key number exactly the
   * refunds that storage dropped, plus one once the key has been answered or while its holder
   * is between debit and answer.
   */
  lemma NetChargeExact(cfg: Config, m: TokenModel, c: Served, evs: seq<Event>, k: RequestKey)
    ensures var s := Run(cfg, m, c, evs);
      && Get(s.log.dropped, k) <= Get(s.log.net, k) <= Get(s.log.dropped, k) + 1
      && (Get(s.log.net, k) == Get(s.log.dropped, k) + 1 <==>
          (k in s.cache && s.cache[k].Done?)
          || (exists id :: id in s.tasks && s.tasks[id].key == k && Charged(s.tasks[id].phase)))
  {
    IssueInvAlways(cfg, m, c, evs);
    var s := Run(cfg, m, c, evs);
    if Standing(s, k) == 1 && k !in s.log.first {
      assert Owns(s, k, s.log.owner[k]);
      assert s.tasks[s.log.owner[k]].key == k;
    }
  }

  /** Two requests never hold the same reservation. */
  lemma OneHolder(cfg: Config, m: TokenModel, c: Served, evs: seq<Event>, i: TaskId, j: TaskId)
    requires var s := Run(cfg, m, c, evs);
      && i in s.tasks && j in s.tasks && s.tasks[i].key == s.tasks[j].key
      && Holding(s.tasks[i].phase) && Holding(s.tasks[j].phase)
    ensures i == j
  {
    IssueInvAlways(cfg, m, c, evs);
  }

  /** All answers under one key carry one response: as many signatures as were paid for. */
  lemma OneResponse(cfg: Config, m: TokenModel, c: Served, evs: seq<Event>, i: TaskId, j: TaskId)
    requires var s := Run(cfg, m, c, evs);
      && i in s.tasks && j in s.tasks && s.tasks[i].key == s.tasks[j].key
      && Answered(s.tasks[i]) && Answered(s.tasks[j])
    ensures var s := Run(cfg, m, c, evs);
      && s.tasks[i].phase.reply.resp == s.tasks[j].phase.reply.resp
      && s.tasks[i].hash == s.tasks[j].hash
      && (s.tasks[i].phase.reply.Issued? ==> |s.tasks[j].phase.reply.resp| == s.tasks[i].amount)
  {
    IssueInvAlways(cfg, m, c, evs);
    var s := Run(cfg, m, c, evs);
    assert AnswerInv(s, s.tasks[i]) && AnswerInv(s, s.tasks[j]);
  }

  predicate NoDroppedRefund(evs: seq<Event>) {
    forall i :: 0 <= i < |evs| && evs[i].Refund? ==> !evs[i].fault
  }

  lemma {:induction false} NothingDropped(cfg: Config, m: TokenModel, c: Served, evs: seq<Event>)
    requires NoDroppedRefund(evs)
    ensures Run(cfg, m, c, evs).log.dropped == map[]
    decreases |evs|
  {
    if evs != [] {
      var pre := evs[..|evs| - 1];
      assert forall i :: 0 <= i < |pre| ==> pre[i] == evs[i];
      NothingDropped(cfg, m, c, pre);
      DroppedFrame(cfg, m, Run(cfg, m, c, pre), evs[|evs| - 1]);
    }
  }

  lemma DroppedFrame(cfg: Config, m: TokenModel, s: State, ev: Event)
    requires ev.Refund? ==> !ev.fault
    ensures Step(cfg, m, s, ev).log.dropped == if ev.Restart? then map[] else s.log.dropped
  {}

  /** Without a dropped refund the net charge per key is zero or one: debit-once. */
  lemma DebitOnce(cfg: Config, m: TokenModel, c: Served, evs: seq<Event>, k: RequestKey)
    requires NoDroppedRefund(evs)
    ensures Get(Run(cfg, m, c, evs).log.net, k) <= 1
  {
    NothingDropped(cfg, m, c, evs);
    NetChargeExact(cfg, m, c, evs, k);
  }

  /** `release` drops only the caller's own pending entry; `store` fills only its own. */
  lemma OnlyOwnEntry(cfg: Config, m: TokenModel, c: Served, evs: seq<Event>, ev: Event)
    requires ev.ReleaseUnpaid? || ev.ReleaseFailed? || ev.StoreResponse?
    requires Enabled(m, Run(cfg, m, c, evs), ev)
    ensures var s := Run(cfg, m, c, evs);
      var t := s.tasks[ev.id];
      && t.key in s.cache && s.cache[t.key] == Pending(t.hash)
      && (forall k :: k in s.cache && k != t.key ==>
            k in Step(cfg, m, s, ev).cache && Step(cfg, m, s, ev).cache[k] == s.cache[k])
  {
    IssueInvAlways(cfg, m, c, evs);
    OwnerHasNoAnswer(Run(cfg, m, c, evs), ev.id);
  }

  /** A completed entry stays in the cache, unchanged, until the process restarts. */
  lemma CompletedEntryStays(cfg: Config, m: TokenModel, c: Served, evs: seq<Event>, ev: Event, k: RequestKey)
    requires var s := Run(cfg, m, c, evs); k in s.cache && s.cache[k].Done?
    requires !ev.Restart?
    ensures var s := Run(cfg, m, c, evs);
      k in Step(cfg, m, s, ev).cache && Step(cfg, m, s, ev).cache[k] == s.cache[k]
  {
    var s := Run(cfg, m, c, evs);
    IssueInvAlways(cfg, m, c, evs);
    if ev.ReleaseUnpaid? || ev.ReleaseFailed? || ev.StoreResponse? {
      if Enabled(m, s, ev) { OwnerHasNoAnswer(s, ev.id); }
    }
  }

  lemma RunSnoc(cfg: Config, m: TokenModel, c: Served, evs: seq<Event>, ev: Event)
    ensures Run(cfg, m, c, evs + [ev]) == Step(cfg, m, Run(cfg, m, c, evs), ev)
  {
    assert (evs + [ev])[..|evs + [ev]| - 1] == evs;
  }

  /** A key that can be charged afresh by task `id` on an account with an empty balance. */
  ghost predicate Chargeable(s: State, k: RequestKey, id: TaskId) {
    && k !in s.cache
    && (forall i :: i in s.tasks ==> i < id)
    && LedgerOf(s.db, k.account).balance == 0
  }

  lemma Play(cfg: Config, m: TokenModel, c: Served, evs: seq<Event>, ev: Event) returns (more: seq<Event>)
    ensures more == evs + [ev]
    ensures Run(cfg, m, c, more) == Step(cfg, m, Run(cfg, m, c, evs), ev)
  {
    more := evs + [ev];
    RunSnoc(cfg, m, c, evs, ev);
  }

  /** `evs` continues `start` in the same process, and loses a bump only if `lossy`. */
  ghost predicate Continues(start: seq<Event>, evs: seq<Event>, lossy: bool) {
    && start <= evs
    && forall i :: |start| <= i < |evs| ==> !evs[i].Restart? && (BumpFails(evs[i]) ==> lossy)
  }

  /** Fund the account with one credit, then let a fresh request on `k` be charged it. */
  lemma ChargeRound(cfg: Config, m: TokenModel, c: Served, start: seq<Event>, k: RequestKey, id: TaskId)
    returns (evs: seq<Event>)
    requires Chargeable(Run(cfg, m, c, start), k, id)
    ensures Continues(start, evs, false)
    ensures var s, s' := Run(cfg, m, c, start), Run(cfg, m, c, evs);
      && s'.key == s.key && s'.epoch == s.epoch
      && id in s'.tasks && s'.tasks[id] == Task(k, 5, 1, AtObserve)
      && (forall i :: i in s'.tasks ==> i <= id)
      && LedgerOf(s'.db, k.account).balance == 0
      && Get(s'.log.net, k) == Get(s.log.net, k) + 1
      && s'.meter == s.meter.(admin := s.meter.admin + 1, debited := s.meter.debited + 1)
      && s'.db == s.db.(ledger := s'.db.ledger)
  {
    evs := Reserve(cfg, m, c, start, k, id);
    assert CanPay(Run(cfg, m, c, evs).db, k.account, 1);
    evs := Play(cfg, m, c, evs, Debit(id, false));
  }

  lemma Reserve(cfg: Config, m: TokenModel, c: Served, start: seq<Event>, k: RequestKey, id: TaskId)
    returns (evs: seq<Event>)
    requires Chargeable(Run(cfg, m, c, start), k, id)
    ensures Continues(start, evs, false)
    ensures var s, s' := Run(cfg, m, c, start), Run(cfg, m, c, evs);
      && s'.key == s.key && s'.epoch == s.epoch
      && id in s'.tasks && s'.tasks[id] == Task(k, 5, 1, AtDebit)
      && (forall i :: i in s'.tasks ==> i <= id)
      && LedgerOf(s'.db, k.account).balance == 1
      && s'.log.net == s.log.net
      && s'.meter == s.meter.(admin := s.meter.admin + 1)
      && s'.db == s.db.(ledger := s'.db.ledger)
  {
    evs := FundAndArrive(cfg, m, c, start, k, id);
    evs := Play(cfg, m, c, evs, Begin(id));
  }

  lemma FundAndArrive(cfg: Config, m: TokenModel, c: Served, start: seq<Event>, k: RequestKey, id: TaskId)
    returns (evs: seq<Event>)
    requires Chargeable(Run(cfg, m, c, start), k, id)
    ensures Continues(start, evs, false)
    ensures var s, s' := Run(cfg, m, c, start), Run(cfg, m, c, evs);
      && s'.key == s.key && s'.epoch == s.epoch && s'.cache == s.cache && s'.log == s.log
      && s'.tasks == s.tasks[id := Task(k, 5, 1, AtBegin)]
      && LedgerOf(s'.db, k.account).balance == 1
      && s'.meter == s.meter.(admin := s.meter.admin + 1)
      && s'.db == s.db.(ledger := s'.db.ledger)
  {
    evs := Play(cfg, m, c, start, AdminGrant(k.account, 1, false));
    evs := Play(cfg, m, c, evs, Arrive(id, k, 5, 1));
  }

  /** Signing fails, storage drops the refund, and the reservation is given up. */
  lemma FailRound(cfg: Config, m: TokenModel, c: Served, start: seq<Event>, k: RequestKey, id: TaskId)
    returns (evs: seq<Event>)
    requires var s := Run(cfg, m, c, start);
      && id in s.tasks && s.tasks[id] == Task(k, 5, 1, AtObserve)
      && (forall i :: i in s.tasks ==> i <= id)
      && LedgerOf(s.db, k.account).balance == 0
    ensures Chargeable(Run(cfg, m, c, evs), k, id + 1)
    ensures Get(Run(cfg, m, c, evs).log.net, k) == Get(Run(cfg, m, c, start).log.net, k)
  {
    evs := Play(cfg, m, c, start, Observe(id, false));
    assert Run(cfg, m, c, evs).tasks[id].phase == AtSign([]);
    evs := Play(cfg, m, c, evs, Sign(id, None));
    evs := Play(cfg, m, c, evs, Refund(id, true));
    evs := Play(cfg, m, c, evs, ReleaseFailed(id));
  }

  /**
   * Debit-once does need the refunds: when storage drops them, retries of one key can be
   * charged any number of times.
   */
  lemma {:induction false} DroppedRefundsAccumulate(cfg: Config, m: TokenModel, c: Served, n: nat)
    returns (evs: seq<Event>)
    ensures Get(Run(cfg, m, c, evs).log.net, RequestKey(7, 0)) == n
    ensures Chargeable(Run(cfg, m, c, evs), RequestKey(7, 0), n)
  {
    evs := [];
    if n > 0 {
      evs := DroppedRefundsAccumulate(cfg, m, c, n - 1);
      evs := ChargeRound(cfg, m, c, evs, RequestKey(7, 0), n - 1);
      evs := FailRound(cfg, m, c, evs, RequestKey(7, 0), n - 1);
    }
  }

  /** Over all runs of a store, debit-once holds exactly if no refund is ever lost. */
  lemma DebitOnceIff(cfg: Config, m: TokenModel, c: Served, lossy: bool)
    ensures (forall evs, k :: lossy || NoDroppedRefund(evs) ==> Get(Run(cfg, m, c, evs).log.net, k) <= 1) <==> !lossy
  {
    if lossy {
      var evs := DroppedRefundsAccumulate(cfg, m, c, 2);
      assert Get(Run(cfg, m, c, evs).log.net, RequestKey(7, 0)) == 2;
    } else {
      forall evs, k | NoDroppedRefund(evs) ensures Get(Run(cfg, m, c, evs).log.net, k) <= 1 {
        DebitOnce(cfg, m, c, evs, k);
      }
    }
  }
}
