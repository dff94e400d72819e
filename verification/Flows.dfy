/** Conservation: how credits, signatures and tokens flow through every interleaving. */
module Flows {
  import opened Prelude
  import opened Tables
  import opened Economy
  import opened IssueOnce
  import opened SpendChain

  // ---- total balance ----

  ghost function Balances(t: Tables): map<AccountId, nat> { map a | a in t.ledger :: t.ledger[a].balance }

  ghost function TotalBalance(t: Tables): nat { Sum(Balances(t)) }

  lemma CreditTotal(t: Tables, a: AccountId, n: nat)
    ensures TotalBalance(CreditAccount(t, a, n)) + Clip(t, a, n) == TotalBalance(t) + n
  {
    SumUpdate(Balances(t), a, SatAdd(LedgerOf(t, a).balance, n));
    assert Balances(CreditAccount(t, a, n)) == Balances(t)[a := SatAdd(LedgerOf(t, a).balance, n)];
  }

  lemma DebitTotal(t: Tables, a: AccountId, n: nat)
    requires CanPay(t, a, n)
    ensures TotalBalance(DebitAccount(t, a, n)) + n == TotalBalance(t)
  {
    SumUpdate(Balances(t), a, LedgerOf(t, a).balance - n);
    assert Balances(DebitAccount(t, a, n)) == Balances(t)[a := LedgerOf(t, a).balance - n];
  }

  lemma SameTotal(t: Tables, t': Tables)
    requires t'.ledger == t.ledger
    ensures TotalBalance(t') == TotalBalance(t)
  {
    assert Balances(t') == Balances(t);
  }

  /** Every credit in circulation is accounted for, to the unit. */
  ghost predicate BooksInv(s: State) {
    TotalBalance(s.db) + s.meter.debited + s.meter.clipped
      == s.meter.admin + s.meter.trial + s.meter.refunded + |s.db.receipts|
  }

  lemma IngestTotal(cfg: Config, t: Tables, sid: SpendId, row: ReceiptRow)
    requires IngestOutcomeOf(t, sid, row.host).Credited?
    ensures var t' := IngestTxn(cfg, t, sid, row);
      && TotalBalance(t') + Clip(t, cfg.fingerprint(row.host), 1) == TotalBalance(t) + 1
      && |t'.receipts| == |t.receipts| + 1
  {
    var mid := t.(receipts := t.receipts[sid := row]);
    SameTotal(t, mid);
    CreditTotal(mid, cfg.fingerprint(row.host), 1);
    InsertCard(t.receipts, sid, row);
    assert LedgerOf(mid, cfg.fingerprint(row.host)) == LedgerOf(t, cfg.fingerprint(row.host));
  }

  lemma TrialTotal(cfg: Config, t: Tables, acct: HostAccount, day: Day, e: Epoch)
    requires TrialOutcomeOf(cfg, t, acct, day).Granted?
    ensures var t' := TrialTxn(cfg, t, acct, day, e);
      && TotalBalance(t') + Clip(t, cfg.fingerprint(acct), cfg.trialGrant)
         == TotalBalance(t) + cfg.trialGrant
      && t'.receipts == t.receipts
  {
    var t' := TrialTxn(cfg, t, acct, day, e);
    var mid := t'.(ledger := t.ledger);
    SameTotal(t, mid);
    CreditTotal(mid, cfg.fingerprint(acct), cfg.trialGrant);
    assert t' == CreditAccount(mid, cfg.fingerprint(acct), cfg.trialGrant);
  }

  lemma BooksFrame(s: State, s': State)
    requires BooksInv(s) && SameMoney(s'.meter, s.meter)
    requires s'.db.ledger == s.db.ledger && s'.db.receipts == s.db.receipts
    ensures BooksInv(s')
  {
    SameTotal(s.db, s'.db);
  }

  lemma BooksDebit(s: State, id: TaskId, fault: bool)
    requires BooksInv(s) && id in s.tasks
    ensures BooksInv(DebitStep(s, id, fault))
  {
    var t := s.tasks[id];
    if CanPay(s.db, t.key.account, t.amount) { DebitTotal(s.db, t.key.account, t.amount); }
  }

  lemma BooksRefund(s: State, id: TaskId, fault: bool)
    requires BooksInv(s) && id in s.tasks
    ensures BooksInv(RefundStep(s, id, fault))
  {
    CreditTotal(s.db, s.tasks[id].key.account, s.tasks[id].amount);
  }

  lemma BooksReceipt(cfg: Config, s: State, sid: SpendId, row: ReceiptRow)
    requires BooksInv(s)
    ensures BooksInv(ReceiptStep(cfg, s, sid, row))
  {
    if IngestOutcomeOf(s.db, sid, row.host).Credited? { IngestTotal(cfg, s.db, sid, row); }
  }

  lemma BooksTrial(cfg: Config, s: State, acct: HostAccount, day: Day)
    requires BooksInv(s)
    ensures BooksInv(TrialStep(cfg, s, acct, day))
  {
    if TrialOutcomeOf(cfg, s.db, acct, day).Granted? { TrialTotal(cfg, s.db, acct, day, s.epoch); }
  }

  lemma BooksStep(cfg: Config, m: TokenModel, s: State, ev: Event)
    requires BooksInv(s)
    ensures BooksInv(Step(cfg, m, s, ev))
  {
    if Enabled(m, s, ev) {
      match ev
      case Debit(id, fault) => BooksDebit(s, id, fault);
      case Refund(id, fault) => BooksRefund(s, id, fault);
      case AdminGrant(a, n, _) => CreditTotal(s.db, a, n);
      case Receipt(sid, row, _) => BooksReceipt(cfg, s, sid, row);
      case Trial(acct, day, _) => BooksTrial(cfg, s, acct, day);
      case Observe(_, _) => BooksFrame(s, Step(cfg, m, s, ev));
      case Redeem(_, _, _) => BooksFrame(s, Step(cfg, m, s, ev));
      case LegacyRedeem(_, _) => BooksFrame(s, Step(cfg, m, s, ev));
      case HostUpdate(_, _) => BooksFrame(s, Step(cfg, m, s, ev));
      case _ => QuietFrame(cfg, m, s, ev);
    }
  }

  // ---- sums over running requests ----

  ghost function Weights(w: Task -> nat, tasks: map<TaskId, Task>): map<TaskId, nat> {
    map id | id in tasks :: w(tasks[id])
  }

  ghost function TaskSum(w: Task -> nat, tasks: map<TaskId, Task>): nat { Sum(Weights(w, tasks)) }

  function WeightOf(w: Task -> nat, tasks: map<TaskId, Task>, id: TaskId): nat {
    if id in tasks then w(tasks[id]) else 0
  }

  lemma TaskSumPut(w: Task -> nat, tasks: map<TaskId, Task>, id: TaskId, t: Task)
    ensures TaskSum(w, tasks[id := t]) == TaskSum(w, tasks) - WeightOf(w, tasks, id) + w(t)
    ensures WeightOf(w, tasks, id) <= TaskSum(w, tasks)
  {
    SumUpdate(Weights(w, tasks), id, w(t));
    assert Weights(w, tasks[id := t]) == Weights(w, tasks)[id := w(t)];
  }

  lemma TaskSumNone(w: Task -> nat)
    ensures TaskSum(w, map[]) == 0
  {
    assert Weights(w, map[]) == map[];
  }

  const Held: Task -> nat := (t: Task) => if Charged(t.phase) then t.amount else 0
  const Unbumped: Task -> nat := (t: Task) => if t.phase.AtObserve? then t.amount else 0
  const Owed: Task -> nat := (t: Task) => if t.phase.AtSign? then SatSub(t.amount, |t.phase.sigs|) else 0
  const Signed: Task -> nat := (t: Task) => if t.phase.AtSign? then |t.phase.sigs| else 0

  /** Events of the issue handler, each of which moves exactly its own task. */
  predicate MovesTask(ev: Event) {
    ev.Arrive? || ev.Begin? || ev.Debit? || ev.ReleaseUnpaid? || ev.Observe? || ev.Sign?
    || ev.Refund? || ev.ReleaseFailed? || ev.StoreResponse?
  }

  /** Bring the task sum of weight `w` from before to after any event but a restart. */
  lemma TaskSumStep(w: Task -> nat, cfg: Config, m: TokenModel, s: State, ev: Event)
    requires Enabled(m, s, ev) && !ev.Restart?
    ensures var s' := Step(cfg, m, s, ev);
      if MovesTask(ev) then
        && ev.id in s'.tasks
        && TaskSum(w, s'.tasks) + WeightOf(w, s.tasks, ev.id)
           == TaskSum(w, s.tasks) + w(s'.tasks[ev.id])
      else s'.tasks == s.tasks
  {
    var s' := Step(cfg, m, s, ev);
    if MovesTask(ev) {
      assert ev.id in s'.tasks && s'.tasks == s.tasks[ev.id := s'.tasks[ev.id]];
      TaskSumPut(w, s.tasks, ev.id, s'.tasks[ev.id]);
    }
  }

  // ---- released signatures are paid for ----

  ghost predicate PaidInv(s: State) {
    Sum(s.meter.released) + s.meter.refunded + TaskSum(Held, s.tasks) <= s.meter.debited
  }

  lemma PaidStore(s: State, id: TaskId)
    requires PaidInv(s) && id in s.tasks && s.tasks[id].phase.AtSign?
    requires |s.tasks[id].phase.sigs| == s.tasks[id].amount
    ensures PaidInv(StoreStep(s, id))
  {
    SumUpdate(s.meter.released, s.key, Get(s.meter.released, s.key) + s.tasks[id].amount);
    TaskSumPut(Held, s.tasks, id, StoreStep(s, id).tasks[id]);
  }

  /** No other event of a handler lets its debit escape. */
  lemma HeldDelta(cfg: Config, m: TokenModel, s: State, ev: Event)
    requires Enabled(m, s, ev) && MovesTask(ev) && !ev.StoreResponse?
    ensures var s' := Step(cfg, m, s, ev);
      && s'.meter.released == s.meter.released
      && ev.id in s'.tasks
      && s'.meter.refunded + Held(s'.tasks[ev.id]) + s.meter.debited
         <= s.meter.refunded + WeightOf(Held, s.tasks, ev.id) + s'.meter.debited
  {
    ReleasedDelta(cfg, m, s, ev);
    if Quiet(ev) { QuietFrame(cfg, m, s, ev); }
  }

  lemma PaidStep(cfg: Config, m: TokenModel, s: State, ev: Event)
    requires PaidInv(s)
    ensures PaidInv(Step(cfg, m, s, ev))
  {
    if Enabled(m, s, ev) {
      if ev.Restart? {
        TaskSumNone(Held);
      } else if ev.StoreResponse? {
        PaidStore(s, ev.id);
      } else if MovesTask(ev) {
        TaskSumStep(Held, cfg, m, s, ev);
        HeldDelta(cfg, m, s, ev);
      }
    }
  }

  // ---- bumps are paid for ----

  ghost function IssuedCounts(t: Tables): map<Epoch, nat> { map e | e in t.counters :: t.counters[e].issued }

  ghost predicate BumpPaidInv(s: State) {
    Sum(IssuedCounts(s.db)) + TaskSum(Unbumped, s.tasks) <= s.meter.debited
  }

  lemma BumpSum(t: Tables, e: Epoch, n: nat)
    ensures Sum(IssuedCounts(BumpIssued(t, e, n))) <= Sum(IssuedCounts(t)) + n
  {
    var v := SatAdd(CounterOf(t, e).issued, n);
    SumUpdate(IssuedCounts(t), e, v);
    assert IssuedCounts(BumpIssued(t, e, n)) == IssuedCounts(t)[e := v];
  }

  lemma IssuedSame(t: Tables, t': Tables, e: Epoch)
    requires t'.counters == t.counters
             || (t'.counters.Keys == t.counters.Keys + {e} && CounterOf(t', e).issued == CounterOf(t, e).issued
                 && forall d :: d in t.counters && d != e ==> t'.counters[d] == t.counters[d])
    ensures Sum(IssuedCounts(t')) == Sum(IssuedCounts(t))
  {
    if t'.counters == t.counters {
      assert IssuedCounts(t') == IssuedCounts(t);
    } else {
      SumUpdate(IssuedCounts(t), e, CounterOf(t, e).issued);
      assert IssuedCounts(t') == IssuedCounts(t)[e := CounterOf(t, e).issued];
    }
  }

  lemma SpendIssuesNothing(t: Tables, sid: SpendId, h: HostAccount, e: Epoch)
    ensures Sum(IssuedCounts(SpendTxn(t, sid, h, e))) == Sum(IssuedCounts(t))
  {
    IssuedSame(t, SpendTxn(t, sid, h, e), e);
  }

  lemma TrialIssuesNothing(cfg: Config, t: Tables, acct: HostAccount, day: Day, e: Epoch)
    ensures Sum(IssuedCounts(TrialTxn(cfg, t, acct, day, e))) == Sum(IssuedCounts(t))
  {
    IssuedSame(t, TrialTxn(cfg, t, acct, day, e), e);
  }

  /** Only a bump changes what is issued; other counter writes at most add a zero row. */
  lemma IssuedFrame(cfg: Config, m: TokenModel, s: State, ev: Event)
    requires !ev.Observe?
    ensures Sum(IssuedCounts(Step(cfg, m, s, ev).db)) == Sum(IssuedCounts(s.db))
  {
    if Enabled(m, s, ev) && ev.Redeem? {
      SpendIssuesNothing(s.db, ev.sid, ev.host, s.epoch);
    } else if Enabled(m, s, ev) && ev.Trial? {
      TrialIssuesNothing(cfg, s.db, ev.acct, ev.day, s.epoch);
    } else if Quiet(ev) {
      QuietFrame(cfg, m, s, ev);
    } else {
      IssuedSame(s.db, Step(cfg, m, s, ev).db, s.epoch);
    }
  }

  lemma BumpPaidObserve(cfg: Config, m: TokenModel, s: State, id: TaskId, fault: bool)
    requires BumpPaidInv(s) && Enabled(m, s, Observe(id, fault))
    ensures BumpPaidInv(ObserveStep(s, id, fault))
  {
    BumpSum(s.db, s.epoch, s.tasks[id].amount);
    TaskSumPut(Unbumped, s.tasks, id, s.tasks[id].(phase := AtSign([])));
  }

  lemma BumpPaidOther(cfg: Config, m: TokenModel, s: State, ev: Event)
    requires BumpPaidInv(s) && Enabled(m, s, ev) && !ev.Restart? && !ev.Observe?
    ensures BumpPaidInv(Step(cfg, m, s, ev))
  {
    IssuedFrame(cfg, m, s, ev);
    TaskSumStep(Unbumped, cfg, m, s, ev);
  }

  lemma BumpPaidStep(cfg: Config, m: TokenModel, s: State, ev: Event)
    requires BumpPaidInv(s)
    ensures BumpPaidInv(Step(cfg, m, s, ev))
  {
    if Enabled(m, s, ev) {
      if ev.Restart? {
        TaskSumNone(Unbumped);
      } else if ev.Observe? {
        BumpPaidObserve(cfg, m, s, ev.id, ev.fault);
      } else {
        BumpPaidOther(cfg, m, s, ev);
      }
    }
  }

  // ---- signatures, key by key ----

  /** A quantity of the running requests, all of which sign with the current key. */
  ghost function Current(w: Task -> nat, s: State, k: KeyId): nat {
    if k == s.key then TaskSum(w, s.tasks) else 0
  }

  /** Only computed signatures are released. */
  ghost predicate ReleasedInv(s: State) {
    forall k :: Get(s.meter.released, k) + Current(Signed, s, k) <= Get(s.meter.made, k)
  }

  lemma ReleasedStep(cfg: Config, m: TokenModel, s: State, ev: Event)
    requires ReleasedInv(s)
    ensures ReleasedInv(Step(cfg, m, s, ev))
  {
    var s' := Step(cfg, m, s, ev);
    if Enabled(m, s, ev) {
      if ev.Restart? {
        TaskSumNone(Signed);
      } else {
        TaskSumStep(Signed, cfg, m, s, ev);
        SignedDelta(cfg, m, s, ev);
      }
      forall k ensures Get(s'.meter.released, k) + Current(Signed, s', k) <= Get(s'.meter.made, k) {
        assert Get(s.meter.released, k) + Current(Signed, s, k) <= Get(s.meter.made, k);
      }
    }
  }

  lemma SignedDelta(cfg: Config, m: TokenModel, s: State, ev: Event)
    requires Enabled(m, s, ev) && !ev.Restart?
    ensures var s' := Step(cfg, m, s, ev);
      && s'.key == s.key
      && (forall k :: k != s.key ==> Get(s'.meter.released, k) == Get(s.meter.released, k))
      && (forall k :: k != s.key ==> Get(s'.meter.made, k) == Get(s.meter.made, k))
      && (if MovesTask(ev) then
            && ev.id in s'.tasks
            && Get(s'.meter.released, s.key) + Signed(s'.tasks[ev.id]) + Get(s.meter.made, s.key)
               <= Get(s.meter.released, s.key) + WeightOf(Signed, s.tasks, ev.id) + Get(s'.meter.made, s.key)
          else s'.meter.released == s.meter.released && s'.meter.made == s.meter.made)
  {}

  // ---- signatures against bumps, when every key belongs to one epoch ----

  /** The share of epoch `e` in a quantity counted by key. */
  ghost function Share(f: KeyId -> Epoch, m: map<KeyId, nat>, e: Epoch): map<KeyId, nat> {
    map k | k in m && f(k) == e :: m[k]
  }

  lemma ShareAdd(f: KeyId -> Epoch, m: map<KeyId, nat>, k: KeyId, n: nat, e: Epoch)
    ensures Sum(Share(f, Add(m, k, n), e)) == Sum(Share(f, m, e)) + (if f(k) == e then n else 0)
  {
    if f(k) == e {
      assert Share(f, Add(m, k, n), e) == Share(f, m, e)[k := Get(m, k) + n];
      SumUpdate(Share(f, m, e), k, Get(m, k) + n);
    } else {
      assert Share(f, Add(m, k, n), e) == Share(f, m, e);
    }
  }

  ghost function CurrentEpoch(w: Task -> nat, s: State, e: Epoch): nat {
    if e == s.epoch then TaskSum(w, s.tasks) else 0
  }

  ghost predicate MadeWithin(f: KeyId -> Epoch, s: State, e: Epoch) {
    Sum(Share(f, s.meter.made, e)) + CurrentEpoch(Owed, s, e) <= Get(s.meter.bumped, e)
  }

  /** Signatures are computed only after the batch has been counted as issued. */
  ghost predicate MadeInv(f: KeyId -> Epoch, s: State) {
    f(s.key) == s.epoch && forall e :: MadeWithin(f, s, e)
  }

  /** Does this event compute a signature? */
  ghost predicate Signs(m: TokenModel, s: State, ev: Event) { Enabled(m, s, ev) && ev.Sign? && ev.result.Some? }

  lemma MadeDelta(cfg: Config, m: TokenModel, s: State, ev: Event)
    ensures Step(cfg, m, s, ev).meter.made == if Signs(m, s, ev) then Add(s.meter.made, s.key, 1) else s.meter.made
  {}

  lemma OwedDelta(cfg: Config, m: TokenModel, s: State, ev: Event)
    requires Enabled(m, s, ev) && !ev.Restart? && !BumpFails(ev)
    ensures var s' := Step(cfg, m, s, ev);
      && s'.epoch == s.epoch && s'.key == s.key
      && (forall e :: e != s.epoch ==> Get(s'.meter.bumped, e) == Get(s.meter.bumped, e))
      && (if MovesTask(ev) then
            && ev.id in s'.tasks
            && (if Signs(m, s, ev) then 1 else 0) + Owed(s'.tasks[ev.id]) + Get(s.meter.bumped, s.epoch)
               <= WeightOf(Owed, s.tasks, ev.id) + Get(s'.meter.bumped, s.epoch)
          else s'.meter.bumped == s.meter.bumped)
  {}

  lemma MadeStep(f: KeyId -> Epoch, cfg: Config, m: TokenModel, s: State, ev: Event)
    requires MadeInv(f, s) && !BumpFails(ev)
    requires ev.Restart? ==> f(ev.next.key) == ev.next.epoch
    ensures MadeInv(f, Step(cfg, m, s, ev))
  {
    var s' := Step(cfg, m, s, ev);
    if Enabled(m, s, ev) {
      MadeDelta(cfg, m, s, ev);
      if ev.Restart? {
        TaskSumNone(Owed);
      } else {
        TaskSumStep(Owed, cfg, m, s, ev);
        OwedDelta(cfg, m, s, ev);
      }
      forall e ensures MadeWithin(f, s', e) {
        assert MadeWithin(f, s, e);
        ShareAdd(f, s.meter.made, s.key, 1, e);
      }
    }
  }

  /** The durable counter is the number of bumps, up to saturation. */
  ghost predicate CounterInv(s: State) {
    forall e :: CounterOf(s.db, e).issued == Min(Get(s.meter.bumped, e), U64_MAX)
  }

  lemma CounterStep(cfg: Config, m: TokenModel, s: State, ev: Event)
    requires CounterInv(s)
    ensures CounterInv(Step(cfg, m, s, ev))
  {
    if Enabled(m, s, ev) {
      if ev.Observe? {
        BumpCounted(s, s.tasks[ev.id].amount);
      } else if ev.Redeem? {
        SpendKeepsIssued(s.db, ev.sid, ev.host, s.epoch);
      } else if ev.Trial? {
        TrialKeepsIssued(cfg, s.db, ev.acct, ev.day, s.epoch);
      } else {
        CountersFrame(cfg, m, s, ev);
      }
    }
  }

  lemma BumpCounted(s: State, n: nat)
    requires CounterInv(s)
    ensures forall e :: CounterOf(BumpIssued(s.db, s.epoch, n), e).issued
                     == Min(Get(Add(s.meter.bumped, s.epoch, n), e), U64_MAX)
  {
    forall e ensures CounterOf(BumpIssued(s.db, s.epoch, n), e).issued
                  == Min(Get(Add(s.meter.bumped, s.epoch, n), e), U64_MAX)
    {
      assert CounterOf(s.db, e).issued == Min(Get(s.meter.bumped, e), U64_MAX);
    }
  }

  lemma SpendKeepsIssued(t: Tables, sid: SpendId, h: HostAccount, d: Epoch)
    ensures forall e :: CounterOf(SpendTxn(t, sid, h, d), e).issued == CounterOf(t, e).issued
  {}

  lemma TrialKeepsIssued(cfg: Config, t: Tables, acct: HostAccount, day: Day, d: Epoch)
    ensures forall e :: CounterOf(TrialTxn(cfg, t, acct, day, d), e).issued == CounterOf(t, e).issued
  {}

  lemma CountersFrame(cfg: Config, m: TokenModel, s: State, ev: Event)
    requires !ev.Observe? && !ev.Redeem? && !ev.Trial?
    ensures Step(cfg, m, s, ev).db.counters == s.db.counters
    ensures Step(cfg, m, s, ev).meter.bumped == s.meter.bumped
  {
    BumpedFrame(cfg, m, s, ev);
    if Quiet(ev) {
      QuietFrame(cfg, m, s, ev);
    } else if !ev.Receipt? && !ev.LegacyRedeem? {
      LedgerOnly(cfg, m, s, ev);
    }
  }

  lemma BumpedFrame(cfg: Config, m: TokenModel, s: State, ev: Event)
    requires !ev.Observe?
    ensures Step(cfg, m, s, ev).meter.bumped == s.meter.bumped
  {}

  // ---- tokens ----

  /** Every token under key `k` is backed by its own signature, under the chosen token model. */
  ghost predicate Backed(m: TokenModel, t: Meter, k: KeyId) {
    match m
    case FromReleased => |Fiber(t.valid, k)| <= Get(t.released, k)
    case FromMade => |Fiber(t.valid, k)| <= Get(t.made, k)
    case Forgeable => true
  }

  ghost predicate TokenInv(m: TokenModel, s: State) { forall k :: Backed(m, s.meter, k) }

  /** Only tokens that verified were burned. */
  ghost predicate BurnInv(s: State) { s.db.spent.Keys <= s.meter.valid.Keys }

  /** When every key belongs to one epoch, a token is burned under the epoch of its key. */
  ghost predicate BurnEpochInv(f: KeyId -> Epoch, s: State) {
    && f(s.key) == s.epoch
    && forall sid :: sid in s.db.spent ==> sid in s.meter.valid && f(s.meter.valid[sid]) == s.db.spent[sid]
  }

  lemma BackingGrows(cfg: Config, m: TokenModel, s: State, ev: Event)
    requires !ev.Unblind?
    ensures var s' := Step(cfg, m, s, ev);
      && s'.meter.valid == s.meter.valid
      && (forall k :: Get(s.meter.released, k) <= Get(s'.meter.released, k))
      && (forall k :: Get(s.meter.made, k) <= Get(s'.meter.made, k))
  {
    ValidFrame(cfg, m, s, ev);
    MadeDelta(cfg, m, s, ev);
    ReleasedDelta(cfg, m, s, ev);
  }

  lemma ValidFrame(cfg: Config, m: TokenModel, s: State, ev: Event)
    requires !ev.Unblind?
    ensures Step(cfg, m, s, ev).meter.valid == s.meter.valid
  {}

  lemma ReleasedDelta(cfg: Config, m: TokenModel, s: State, ev: Event)
    ensures Step(cfg, m, s, ev).meter.released
         == if Enabled(m, s, ev) && ev.StoreResponse? then Add(s.meter.released, s.key, |s.tasks[ev.id].phase.sigs|)
            else s.meter.released
  {}

  lemma UnblindBacked(m: TokenModel, s: State, sid: SpendId, key: KeyId, k: KeyId)
    requires Backed(m, s.meter, k) && sid !in s.meter.valid && MayUnblind(m, s, key)
    ensures Backed(m, s.meter.(valid := s.meter.valid[sid := key]), k)
  {
    FiberInsert(s.meter.valid, sid, key);
  }

  lemma TokenStep(cfg: Config, m: TokenModel, s: State, ev: Event)
    requires TokenInv(m, s)
    ensures TokenInv(m, Step(cfg, m, s, ev))
  {
    if ev.Unblind? {
      forall k ensures Backed(m, Step(cfg, m, s, ev).meter, k) {
        if Enabled(m, s, ev) { UnblindBacked(m, s, ev.sid, ev.under, k); }
      }
    } else {
      BackingGrows(cfg, m, s, ev);
      forall k ensures Backed(m, Step(cfg, m, s, ev).meter, k) {
        assert Backed(m, s.meter, k);
      }
    }
  }

  lemma BurnStep(cfg: Config, m: TokenModel, s: State, ev: Event)
    requires BurnInv(s)
    ensures BurnInv(Step(cfg, m, s, ev))
  {
    if !ev.Redeem? && !ev.LegacyRedeem? && !ev.Unblind? {
      BurnFrame(cfg, m, s, ev);
    }
  }

  lemma BurnEpochStep(f: KeyId -> Epoch, cfg: Config, m: TokenModel, s: State, ev: Event)
    requires BurnEpochInv(f, s)
    requires ev.Restart? ==> f(ev.next.key) == ev.next.epoch
    ensures BurnEpochInv(f, Step(cfg, m, s, ev))
  {
    if !ev.Redeem? && !ev.LegacyRedeem? && !ev.Unblind? {
      BurnFrame(cfg, m, s, ev);
      if !ev.Restart? { ServedFrame(cfg, m, s, ev); }
    }
  }

  lemma ServedFrame(cfg: Config, m: TokenModel, s: State, ev: Event)
    requires !ev.Restart?
    ensures Step(cfg, m, s, ev).key == s.key && Step(cfg, m, s, ev).epoch == s.epoch
  {}

  lemma BurnFrame(cfg: Config, m: TokenModel, s: State, ev: Event)
    requires !ev.Redeem? && !ev.LegacyRedeem? && !ev.Unblind?
    ensures Step(cfg, m, s, ev).db.spent == s.db.spent && Step(cfg, m, s, ev).meter.valid == s.meter.valid
  {
    BackingGrows(cfg, m, s, ev);
    if !ev.Receipt? {
      OtherStepsFrame(cfg, m, s, ev);
    }
  }
}
