/** The headline claims about the whole credit economy, over every run. */
module ZeroSum {
  import opened Prelude
  import opened Tables
  import opened Idempotency
  import opened Economy
  import opened IssueOnce
  import opened SpendChain
  import opened Flows

  ghost predicate EconomyInv(m: TokenModel, s: State) {
    && SpendInv(s.db)
    && BooksInv(s)
    && PaidInv(s)
    && BumpPaidInv(s)
    && ReleasedInv(s)
    && CounterInv(s)
    && TokenInv(m, s)
    && BurnInv(s)
  }

  lemma EconomyInit(m: TokenModel, c: Served)
    ensures EconomyInv(m, Init(c))
  {
    var s := Init(c);
    assert BoundEpochs(EMPTY) == map[];
    assert Balances(EMPTY) == map[] && IssuedCounts(EMPTY) == map[];
    TaskSumNone(Held);
    TaskSumNone(Unbumped);
    TaskSumNone(Signed);
    forall d ensures BoundCount(EMPTY, d) == 0 && Fiber(s.meter.valid, d) == {} {
      assert Fiber(BoundEpochs(EMPTY), d) == {};
    }
  }

  lemma {:induction false} EconomyAlways(cfg: Config, m: TokenModel, c: Served, evs: seq<Event>)
    ensures EconomyInv(m, Run(cfg, m, c, evs))
    decreases |evs|
  {
    if evs == [] {
      EconomyInit(m, c);
    } else {
      var s, ev := Run(cfg, m, c, evs[..|evs| - 1]), evs[|evs| - 1];
      EconomyAlways(cfg, m, c, evs[..|evs| - 1]);
      SpendInvStep(cfg, m, s, ev);
      BooksStep(cfg, m, s, ev);
      PaidStep(cfg, m, s, ev);
      BumpPaidStep(cfg, m, s, ev);
      ReleasedStep(cfg, m, s, ev);
      CounterStep(cfg, m, s, ev);
      TokenStep(cfg, m, s, ev);
      BurnStep(cfg, m, s, ev);
    }
  }

  // ---- grants, as the outside world sees them ----

  /** Credits the operator asked to grant. */
  function AdminRequested(evs: seq<Event>): nat {
    if evs == [] then 0
    else
      var ev := evs[|evs| - 1];
      AdminRequested(evs[..|evs| - 1]) + (if ev.AdminGrant? then ev.credits else 0)
  }

  lemma AdminStepBound(cfg: Config, m: TokenModel, s: State, ev: Event)
    ensures Step(cfg, m, s, ev).meter.admin <= s.meter.admin + (if ev.AdminGrant? then ev.credits else 0)
  {}

  lemma {:induction false} AdminWithinRequests(cfg: Config, m: TokenModel, c: Served, evs: seq<Event>)
    ensures Run(cfg, m, c, evs).meter.admin <= AdminRequested(evs)
    decreases |evs|
  {
    if evs != [] {
      AdminWithinRequests(cfg, m, c, evs[..|evs| - 1]);
      AdminStepBound(cfg, m, Run(cfg, m, c, evs[..|evs| - 1]), evs[|evs| - 1]);
    }
  }

  // ---- the theorems ----

  /**
   * No credit is ever created: balances, plus released tokens not yet turned into receipts, plus
   * debits still held by running requests, stay within what was granted, for every token model.
   */
  lemma ClaimsWithinGrants(cfg: Config, m: TokenModel, c: Served, evs: seq<Event>)
    ensures var s := Run(cfg, m, c, evs);
      TotalBalance(s.db) + Sum(s.meter.released) + TaskSum(Held, s.tasks)
        <= s.meter.admin + s.meter.trial + |s.db.receipts|
  {
    EconomyAlways(cfg, m, c, evs);
  }

  lemma ReceiptsWithinBound(t: Tables)
    requires ChainInv(t)
    ensures |t.receipts| <= |t.spendHost| == |BoundEpochs(t)|
  {
    SubsetCard(t.receipts.Keys, t.spendHost.Keys);
    assert BoundEpochs(t).Keys == t.spendHost.Keys;
    assert |t.receipts| == |t.receipts.Keys| && |t.spendHost| == |t.spendHost.Keys|;
    assert |BoundEpochs(t)| == |BoundEpochs(t).Keys|;
  }

  /** Receipts are backed by released signatures, one each. */
  lemma ReceiptsWithinReleased(s: State)
    requires EconomyInv(FromReleased, s)
    ensures |s.db.receipts| <= Sum(s.meter.released)
  {
    ReceiptsWithinBound(s.db);
    assert BoundEpochs(s.db).Keys <= s.meter.valid.Keys;
    SubsetCard(BoundEpochs(s.db).Keys, s.meter.valid.Keys);
    forall k ensures |Fiber(s.meter.valid, k)| <= Get(s.meter.released, k) {
      assert Backed(FromReleased, s.meter, k);
    }
    FibersWithinQuota(s.meter.valid, s.meter.released);
    assert |BoundEpochs(s.db)| == |BoundEpochs(s.db).Keys| && |s.meter.valid| == |s.meter.valid.Keys|;
  }

  /** Strictly zero-sum: whatever hosts and consumers do, balances never exceed the grants. */
  lemma StrictlyZeroSum(cfg: Config, c: Served, evs: seq<Event>)
    ensures var s := Run(cfg, FromReleased, c, evs);
      TotalBalance(s.db) <= s.meter.admin + s.meter.trial <= AdminRequested(evs) + s.meter.trial
  {
    EconomyAlways(cfg, FromReleased, c, evs);
    ReceiptsWithinReleased(Run(cfg, FromReleased, c, evs));
    AdminWithinRequests(cfg, FromReleased, c, evs);
  }

  /** Receipts are bounded by the issued counters alone, whoever can make tokens. */
  lemma ReceiptsWithinIssued(m: TokenModel, s: State)
    requires EconomyInv(m, s)
    requires forall d :: CounterOf(s.db, d).issued < U64_MAX
    ensures |s.db.receipts| <= Sum(IssuedCounts(s.db))
  {
    ReceiptsWithinBound(s.db);
    forall d ensures |Fiber(BoundEpochs(s.db), d)| <= Get(IssuedCounts(s.db), d) {
      assert BoundCount(s.db, d) == CounterOf(s.db, d).redeemed <= CounterOf(s.db, d).issued;
    }
    FibersWithinQuota(BoundEpochs(s.db), IssuedCounts(s.db));
  }

  /**
   * The tripwire alone, with a broken signing key: an attacker who forges tokens at will gains at
   * most the refunds, because every redeem is charged against a bump that was paid for.
   */
  lemma TripwireBoundsForgery(cfg: Config, m: TokenModel, c: Served, evs: seq<Event>)
    requires forall d :: CounterOf(Run(cfg, m, c, evs).db, d).issued < U64_MAX
    ensures var s := Run(cfg, m, c, evs);
      TotalBalance(s.db) <= s.meter.admin + s.meter.trial + s.meter.refunded
  {
    EconomyAlways(cfg, m, c, evs);
    ReceiptsWithinIssued(m, Run(cfg, m, c, evs));
  }

  /** A fresh deployment in which one request has been charged one credit. */
  lemma PaidRequest(cfg: Config, m: TokenModel, c: Served) returns (evs: seq<Event>)
    ensures var s := Run(cfg, m, c, evs);
      && 0 in s.tasks && s.tasks[0] == Task(RequestKey(7, 0), 5, 1, AtObserve)
      && LedgerOf(s.db, 7).balance == 0 && s.db == EMPTY.(ledger := s.db.ledger)
      && s.meter == Init(c).meter.(admin := 1, debited := 1)
  {
    evs := ChargeRound(cfg, m, c, [], RequestKey(7, 0), 0);
  }

  /** The bound is reached: one refunded batch and one forged token double a grant, at any registered host. */
  lemma RefundBoundIsReached(cfg: Config, c: Served, host: HostAccount, entry: HostEntry) returns (evs: seq<Event>)
    ensures var s := Run(cfg, Forgeable, c, evs);
      && s.meter.refunded == 1 && s.meter.admin == 1 && s.meter.trial == 0
      && TotalBalance(s.db) == s.meter.admin + s.meter.trial + s.meter.refunded
  {
    evs := PaidRequest(cfg, Forgeable, c);
    evs := RefundThenForge(cfg, c, evs, RequestKey(7, 0), host, entry);
    ExactConservation(cfg, Forgeable, c, evs);
  }

  lemma RefundThenForge(cfg: Config, c: Served, start: seq<Event>, k: RequestKey, host: HostAccount, entry: HostEntry)
    returns (evs: seq<Event>)
    requires var s := Run(cfg, Forgeable, c, start);
      && 0 in s.tasks && s.tasks[0] == Task(k, 5, 1, AtObserve) && LedgerOf(s.db, k.account).balance == 0
      && s.db == EMPTY.(ledger := s.db.ledger)
      && s.meter == Init(c).meter.(admin := 1, debited := 1)
    ensures var s := Run(cfg, Forgeable, c, evs);
      && s.meter.(clipped := 0, bumped := map[], valid := map[])
         == Init(c).meter.(admin := 1, debited := 1, refunded := 1)
      && |s.db.receipts| == 1
  {
    var m := Forgeable;
    evs := Play(cfg, m, c, start, Observe(0, false));
    evs := Play(cfg, m, c, evs, Sign(0, None));
    evs := Play(cfg, m, c, evs, Refund(0, false));
    evs := Play(cfg, m, c, evs, ReleaseFailed(0));
    var s := Run(cfg, m, c, evs);
    assert CounterOf(s.db, s.epoch) == CounterRow(1, 0, 0);
    evs := Forge(cfg, c, evs, 3, host, entry);
  }

  /** With a broken key, an issued unit that was never signed still pays for one receipt. */
  lemma Forge(cfg: Config, c: Served, start: seq<Event>, sid: SpendId, host: HostAccount, entry: HostEntry)
    returns (evs: seq<Event>)
    requires var s := Run(cfg, Forgeable, c, start);
      && s.db.spent == map[] && s.db.receipts == map[] && s.meter.valid == map[]
      && CounterOf(s.db, s.epoch) == CounterRow(1, 0, 0)
    ensures var s, s' := Run(cfg, Forgeable, c, start), Run(cfg, Forgeable, c, evs);
      && s'.meter.(clipped := s.meter.clipped, valid := map[]) == s.meter
      && |s'.db.receipts| == 1
  {
    evs := Play(cfg, Forgeable, c, start, Unblind(sid, Run(cfg, Forgeable, c, start).key));
    evs := RedeemFor(cfg, c, evs, sid, host, entry);
    var s, row := Run(cfg, Forgeable, c, evs), ReceiptRow(host, 1, 0);
    evs := Play(cfg, Forgeable, c, evs, Receipt(sid, row, false));
    InsertCard(s.db.receipts, sid, row);
  }

  lemma RedeemFor(cfg: Config, c: Served, start: seq<Event>, sid: SpendId, host: HostAccount, entry: HostEntry)
    returns (evs: seq<Event>)
    requires var s := Run(cfg, Forgeable, c, start);
      && TokenVerifies(s, sid) && s.db.spent == map[] && s.db.receipts == map[]
      && CounterOf(s.db, s.epoch) == CounterRow(1, 0, 0)
    ensures var s, s' := Run(cfg, Forgeable, c, start), Run(cfg, Forgeable, c, evs);
      && s'.meter == s.meter && s'.db.receipts == map[] && host in s'.db.hosts
      && sid in s'.db.spent && sid in s'.db.spendHost && s'.db.spendHost[sid] == host
  {
    evs := Play(cfg, Forgeable, c, start, HostUpdate(host, entry));
    var s := Run(cfg, Forgeable, c, evs);
    assert SpendOutcomeOf(s.db, sid, s.epoch).Spent?;
    evs := Play(cfg, Forgeable, c, evs, Redeem(sid, host, false));
  }

  // ---- exactness ----

  /** All credit ever put into the ledger. */
  ghost function Credited(s: State): nat {
    s.meter.admin + s.meter.trial + s.meter.refunded + |s.db.receipts|
  }

  lemma NothingClipped(t: Tables, a: AccountId, n: nat)
    requires TotalBalance(t) + n <= U64_MAX
    ensures Clip(t, a, n) == 0
  {
    SumUpdate(Balances(t), a, 0);
  }

  lemma UnclippedStep(cfg: Config, m: TokenModel, s: State, ev: Event)
    requires BooksInv(s)
    ensures Credited(s) <= Credited(Step(cfg, m, s, ev))
    ensures Credited(Step(cfg, m, s, ev)) <= U64_MAX ==>
              Step(cfg, m, s, ev).meter.clipped == s.meter.clipped
  {
    var s' := Step(cfg, m, s, ev);
    assert TotalBalance(s.db) <= Credited(s);
    if Enabled(m, s, ev) {
      if Quiet(ev) {
        QuietFrame(cfg, m, s, ev);
      } else if ev.Refund? {
        if Credited(s') <= U64_MAX && !ev.fault {
          NothingClipped(s.db, s.tasks[ev.id].key.account, s.tasks[ev.id].amount);
        }
      } else if ev.AdminGrant? {
        if Credited(s') <= U64_MAX { NothingClipped(s.db, ev.account, ev.credits); }
      } else if ev.Trial? {
        if TrialOutcomeOf(cfg, s.db, ev.acct, ev.day).Granted? && Credited(s') <= U64_MAX {
          NothingClipped(s.db, cfg.fingerprint(ev.acct), cfg.trialGrant);
        }
      } else if ev.Receipt? {
        if IngestOutcomeOf(s.db, ev.sid, ev.row.host).Credited? {
          InsertCard(s.db.receipts, ev.sid, ev.row);
          if Credited(s') <= U64_MAX { NothingClipped(s.db, cfg.fingerprint(ev.row.host), 1); }
        }
      }
    }
  }

  /** While less than u64::MAX was ever credited, the books balance to the unit. */
  lemma {:induction false} ExactConservation(cfg: Config, m: TokenModel, c: Served, evs: seq<Event>)
    requires Credited(Run(cfg, m, c, evs)) <= U64_MAX
    ensures var s := Run(cfg, m, c, evs);
      s.meter.clipped == 0 && TotalBalance(s.db) + s.meter.debited == Credited(s)
    decreases |evs|
  {
    EconomyAlways(cfg, m, c, evs);
    if evs != [] {
      EconomyAlways(cfg, m, c, evs[..|evs| - 1]);
      UnclippedStep(cfg, m, Run(cfg, m, c, evs[..|evs| - 1]), evs[|evs| - 1]);
      ExactConservation(cfg, m, c, evs[..|evs| - 1]);
    }
  }

  // ---- how a store is served over its life ----

  /** The settings of the processes that served the store, in order. */
  function Deployments(c: Served, evs: seq<Event>): (ds: seq<Served>)
    ensures |ds| >= 1 && ds[0] == c
  {
    if evs == [] then [c]
    else
      var ev := evs[|evs| - 1];
      Deployments(c, evs[..|evs| - 1]) + (if ev.Restart? then [ev.next] else [])
  }

  /** No key is served under two epochs. */
  predicate OneEpochPerKey(ds: seq<Served>) {
    forall i, j :: 0 <= i < |ds| && 0 <= j < |ds| && ds[i].key == ds[j].key ==> ds[i].epoch == ds[j].epoch
  }

  ghost predicate Tied(f: KeyId -> Epoch, ds: seq<Served>) {
    forall i :: 0 <= i < |ds| ==> f(ds[i].key) == ds[i].epoch
  }

  ghost function EpochOf(ds: seq<Served>, k: KeyId): Epoch {
    if exists i :: 0 <= i < |ds| && ds[i].key == k then
      var i :| 0 <= i < |ds| && ds[i].key == k;
      ds[i].epoch
    else 0
  }

  lemma EpochOfTies(ds: seq<Served>) returns (f: KeyId -> Epoch)
    requires OneEpochPerKey(ds)
    ensures Tied(f, ds)
  {
    f := (k: KeyId) => EpochOf(ds, k);
  }

  lemma TiedBefore(f: KeyId -> Epoch, c: Served, evs: seq<Event>)
    requires evs != [] && Tied(f, Deployments(c, evs))
    ensures Tied(f, Deployments(c, evs[..|evs| - 1]))
    ensures evs[|evs| - 1].Restart? ==> f(evs[|evs| - 1].next.key) == evs[|evs| - 1].next.epoch
  {
    var ds, pre := Deployments(c, evs), Deployments(c, evs[..|evs| - 1]);
    assert forall i :: 0 <= i < |pre| ==> pre[i] == ds[i];
    if evs[|evs| - 1].Restart? { assert ds[|ds| - 1] == evs[|evs| - 1].next; }
  }

  // ---- the tripwire never fires by itself ----

  predicate BumpsSucceed(evs: seq<Event>) { forall i :: 0 <= i < |evs| ==> !BumpFails(evs[i]) }

  lemma TiedInit(f: KeyId -> Epoch, c: Served)
    requires f(c.key) == c.epoch
    ensures MadeInv(f, Init(c)) && BurnEpochInv(f, Init(c))
  {
    TaskSumNone(Owed);
    forall e ensures MadeWithin(f, Init(c), e) {
      assert Share(f, map[], e) == map[];
    }
  }

  lemma {:induction false} TiedAlways(f: KeyId -> Epoch, cfg: Config, m: TokenModel, c: Served, evs: seq<Event>)
    requires BumpsSucceed(evs) && Tied(f, Deployments(c, evs))
    ensures MadeInv(f, Run(cfg, m, c, evs)) && BurnEpochInv(f, Run(cfg, m, c, evs))
    decreases |evs|
  {
    if evs == [] {
      assert f(Deployments(c, evs)[0].key) == c.epoch;
      TiedInit(f, c);
    } else {
      var pre, ev := evs[..|evs| - 1], evs[|evs| - 1];
      assert forall i :: 0 <= i < |pre| ==> pre[i] == evs[i];
      TiedBefore(f, c, evs);
      TiedAlways(f, cfg, m, c, pre);
      MadeStep(f, cfg, m, Run(cfg, m, c, pre), ev);
      BurnEpochStep(f, cfg, m, Run(cfg, m, c, pre), ev);
    }
  }

  /** The tokens whose key belongs to epoch `e`. */
  ghost function TokensOf(f: KeyId -> Epoch, s: State, e: Epoch): map<SpendId, KeyId> {
    map t | t in s.meter.valid && f(s.meter.valid[t]) == e :: s.meter.valid[t]
  }

  lemma BoundBelowTokens(f: KeyId -> Epoch, s: State, sid: SpendId)
    requires ChainInv(s.db) && BurnEpochInv(f, s)
    requires TokenVerifies(s, sid) && sid !in s.db.spent
    ensures BoundCount(s.db, s.epoch) < |TokensOf(f, s, s.epoch)|
  {
    var bound, tokens := Fiber(BoundEpochs(s.db), s.epoch), TokensOf(f, s, s.epoch);
    assert bound <= tokens.Keys;
    assert sid in tokens.Keys && sid !in bound;
    SubsetCard(bound, tokens.Keys);
    assert |tokens| == |tokens.Keys|;
  }

  lemma TokensWithinMade(f: KeyId -> Epoch, m: TokenModel, s: State, e: Epoch)
    requires !m.Forgeable? && TokenInv(m, s) && ReleasedInv(s)
    ensures |TokensOf(f, s, e)| <= Sum(Share(f, s.meter.made, e))
  {
    var tokens, quota := TokensOf(f, s, e), Share(f, s.meter.made, e);
    forall k ensures |Fiber(tokens, k)| <= Get(quota, k) {
      if f(k) == e {
        assert Fiber(tokens, k) == Fiber(s.meter.valid, k);
        assert Backed(m, s.meter, k);
        assert Get(s.meter.released, k) + Current(Signed, s, k) <= Get(s.meter.made, k);
      } else {
        assert Fiber(tokens, k) == {};
      }
    }
    FibersWithinQuota(tokens, quota);
  }

  /**
   * No false trip: if the issued bumps were stored and no key was served under two epochs, then in
   * every interleaving the redeem of any unspent token that verifies succeeds, even if signatures
   * leak before their batch is answered.
   */
  lemma NoFalseTrip(cfg: Config, m: TokenModel, c: Served, evs: seq<Event>, sid: SpendId)
    requires !m.Forgeable? && BumpsSucceed(evs) && OneEpochPerKey(Deployments(c, evs))
    requires var s := Run(cfg, m, c, evs); TokenVerifies(s, sid) && sid !in s.db.spent
    ensures var s := Run(cfg, m, c, evs); SpendOutcomeOf(s.db, sid, s.epoch) == Spent
  {
    var s := Run(cfg, m, c, evs);
    var f := EpochOfTies(Deployments(c, evs));
    EconomyAlways(cfg, m, c, evs);
    TiedAlways(f, cfg, m, c, evs);
    BoundBelowTokens(f, s, sid);
    TokensWithinMade(f, m, s, s.epoch);
    assert MadeWithin(f, s, s.epoch);
    TripsWhen(m, s, sid);
  }

  /** Exactly when the wire trips on an unspent token: one bound spend more would pass `issued`. */
  lemma TripsExactlyWhen(cfg: Config, m: TokenModel, c: Served, evs: seq<Event>, sid: SpendId)
    requires var s := Run(cfg, m, c, evs); sid !in s.db.spent
    ensures var s := Run(cfg, m, c, evs);
      SpendOutcomeOf(s.db, sid, s.epoch) == Refused <==>
        Min(BoundCount(s.db, s.epoch) + 1, U64_MAX) > Min(Get(s.meter.bumped, s.epoch), U64_MAX)
  {
    EconomyAlways(cfg, m, c, evs);
    TripsWhen(m, Run(cfg, m, c, evs), sid);
  }

  lemma TripsWhen(m: TokenModel, s: State, sid: SpendId)
    requires EconomyInv(m, s) && sid !in s.db.spent
    ensures SpendOutcomeOf(s.db, sid, s.epoch) == Refused <==>
      Min(BoundCount(s.db, s.epoch) + 1, U64_MAX) > Min(Get(s.meter.bumped, s.epoch), U64_MAX)
  {
    assert CounterOf(s.db, s.epoch).redeemed == Min(BoundCount(s.db, s.epoch), U64_MAX);
    assert CounterOf(s.db, s.epoch).issued == Min(Get(s.meter.bumped, s.epoch), U64_MAX);
  }

  // ---- and when it does ----

  /** An honest, unspent token that the served key verifies is refused. */
  ghost predicate FalseTrip(cfg: Config, m: TokenModel, c: Served, evs: seq<Event>, sid: SpendId) {
    var s := Run(cfg, m, c, evs);
    TokenVerifies(s, sid) && sid !in s.db.spent && SpendOutcomeOf(s.db, sid, s.epoch) == Refused
  }

  lemma DeploymentsSnoc(c: Served, evs: seq<Event>, ev: Event)
    ensures Deployments(c, evs + [ev]) == Deployments(c, evs) + (if ev.Restart? then [ev.next] else [])
  {
    assert (evs + [ev])[..|evs|] == evs;
  }

  lemma {:induction false} SameDeployments(c: Served, start: seq<Event>, evs: seq<Event>, lossy: bool)
    requires Continues(start, evs, lossy)
    ensures Deployments(c, evs) == Deployments(c, start)
    decreases |evs|
  {
    if evs == start {
    } else {
      SameDeployments(c, start, evs[..|evs| - 1], lossy);
      assert !evs[|evs| - 1].Restart?;
    }
  }

  /** Restart through the deployments `from`, ..., `last` of a plan; the store is left as it is. */
  lemma {:induction false} RestartThrough(cfg: Config, m: TokenModel, ds: seq<Served>, start: seq<Event>,
                                          from: nat, last: nat)
    returns (evs: seq<Event>)
    requires from <= last < |ds| && Deployments(ds[0], start) == ds[..from + 1]
    requires BumpsSucceed(start)
    ensures Deployments(ds[0], evs) == ds[..last + 1] && BumpsSucceed(evs)
    ensures var s, s' := Run(cfg, m, ds[0], start), Run(cfg, m, ds[0], evs);
      && s'.db == s.db && s'.meter == s.meter
      && (from < last ==>
            s'.key == ds[last].key && s'.epoch == ds[last].epoch && s'.cache == map[] && s'.tasks == map[])
      && (from == last ==> s' == s)
    decreases last - from
  {
    if from == last {
      evs := start;
    } else {
      var mid := RestartThrough(cfg, m, ds, start, from, last - 1);
      evs := Play(cfg, m, ds[0], mid, Restart(ds[last]));
      DeploymentsSnoc(ds[0], mid, Restart(ds[last]));
      assert ds[..last + 1] == ds[..last] + [ds[last]];
    }
  }

  /** One token is issued, with or without its bump, and unblinded. */
  lemma IssueOneToken(cfg: Config, m: TokenModel, c: Served, start: seq<Event>, lost: bool)
    returns (evs: seq<Event>)
    requires !m.Forgeable?
    requires var s := Run(cfg, m, c, start);
      s.db == EMPTY && s.cache == map[] && s.tasks == map[] && s.meter == Init(c).meter
    ensures Continues(start, evs, lost)
    ensures var s, s' := Run(cfg, m, c, start), Run(cfg, m, c, evs);
      && s'.key == s.key && s'.epoch == s.epoch && s'.db.spent == map[]
      && s'.meter.valid == map[3 := s.key]
      && s'.db.counters == if lost then map[] else map[s.epoch := CounterRow(1, 0, 0)]
  {
    var charged := ChargeRound(cfg, m, c, start, RequestKey(7, 0), 0);
    evs := SignAndRelease(cfg, m, c, charged, lost);
    var s := Run(cfg, m, c, evs);
    assert Fiber(s.meter.valid, s.key) == {};
    evs := Play(cfg, m, c, evs, Unblind(3, s.key));
  }

  lemma SignAndRelease(cfg: Config, m: TokenModel, c: Served, start: seq<Event>, lost: bool)
    returns (evs: seq<Event>)
    requires var s := Run(cfg, m, c, start);
      0 in s.tasks && s.tasks[0] == Task(RequestKey(7, 0), 5, 1, AtObserve) && s.db.counters == map[]
    ensures Continues(start, evs, lost)
    ensures var s, s' := Run(cfg, m, c, start), Run(cfg, m, c, evs);
      && s'.key == s.key && s'.epoch == s.epoch && s'.db.spent == s.db.spent
      && s'.meter.valid == s.meter.valid
      && Get(s'.meter.made, s.key) >= 1 && Get(s'.meter.released, s.key) >= 1
      && s'.db.counters == if lost then map[] else map[s.epoch := CounterRow(1, 0, 0)]
  {
    evs := CountAndSign(cfg, m, c, start, lost);
    evs := Play(cfg, m, c, evs, StoreResponse(0));
  }

  lemma CountAndSign(cfg: Config, m: TokenModel, c: Served, start: seq<Event>, lost: bool)
    returns (evs: seq<Event>)
    requires var s := Run(cfg, m, c, start);
      0 in s.tasks && s.tasks[0] == Task(RequestKey(7, 0), 5, 1, AtObserve) && s.db.counters == map[]
    ensures Continues(start, evs, lost)
    ensures var s, s' := Run(cfg, m, c, start), Run(cfg, m, c, evs);
      && s'.key == s.key && s'.epoch == s.epoch && s'.db.spent == s.db.spent
      && s'.meter.valid == s.meter.valid && Get(s'.meter.made, s.key) >= 1
      && 0 in s'.tasks && s'.tasks[0].amount == 1 && s'.tasks[0].phase.AtSign? && |s'.tasks[0].phase.sigs| == 1
      && s'.db.counters == if lost then map[] else map[s.epoch := CounterRow(1, 0, 0)]
  {
    evs := CountBatch(cfg, m, c, start, lost);
    evs := Play(cfg, m, c, evs, Sign(0, Some(11)));
  }

  lemma CountBatch(cfg: Config, m: TokenModel, c: Served, start: seq<Event>, lost: bool)
    returns (evs: seq<Event>)
    requires var s := Run(cfg, m, c, start);
      0 in s.tasks && s.tasks[0] == Task(RequestKey(7, 0), 5, 1, AtObserve) && s.db.counters == map[]
    ensures Continues(start, evs, lost)
    ensures var s, s' := Run(cfg, m, c, start), Run(cfg, m, c, evs);
      && s'.key == s.key && s'.epoch == s.epoch && s'.db.spent == s.db.spent
      && s'.meter.valid == s.meter.valid
      && 0 in s'.tasks && s'.tasks[0] == Task(RequestKey(7, 0), 5, 1, AtSign([]))
      && s'.db.counters == if lost then map[] else map[s.epoch := CounterRow(1, 0, 0)]
  {
    evs := Play(cfg, m, c, start, Observe(0, lost));
  }

  lemma NothingIssuedTrips(t: Tables, sid: SpendId, e: Epoch)
    requires sid !in t.spent && CounterOf(t, e).issued == 0
    ensures SpendOutcomeOf(t, sid, e) == Refused
  {}

  /** The bump does matter: drop it, and an honest token is refused. */
  lemma DroppedBumpTrips(cfg: Config, m: TokenModel, c: Served) returns (evs: seq<Event>)
    requires !m.Forgeable?
    ensures Deployments(c, evs) == [c] && FalseTrip(cfg, m, c, evs, 3)
  {
    evs := IssueOneToken(cfg, m, c, [], true);
    SameDeployments(c, [], evs, true);
    var s := Run(cfg, m, c, evs);
    NothingIssuedTrips(s.db, 3, s.epoch);
  }

  /**
   * So does the epoch: issue a token, restart with the same key under another epoch, and the honest
   * token verifies, is counted under an epoch that issued nothing, and is refused.
   */
  lemma ReusedKeyTrips(cfg: Config, m: TokenModel, ds: seq<Served>, i: nat, j: nat) returns (evs: seq<Event>)
    requires !m.Forgeable? && i < j < |ds| && ds[i].key == ds[j].key && ds[i].epoch != ds[j].epoch
    ensures Deployments(ds[0], evs) == ds[..j + 1] && BumpsSucceed(evs)
    ensures FalseTrip(cfg, m, ds[0], evs, 3)
  {
    var c := ds[0];
    assert ds[..1] == [c];
    var before := RestartThrough(cfg, m, ds, [], 0, i);
    var issued := IssueOneToken(cfg, m, c, before, false);
    SameDeployments(c, before, issued, false);
    evs := RestartThrough(cfg, m, ds, issued, i, j);
    NothingIssuedTrips(Run(cfg, m, c, evs).db, 3, ds[j].epoch);
  }

  /**
   * Exactly when the wire is quiet.  For a store served by the deployments `ds`, no run loses an
   * honest token to the tripwire if and only if no key is served under two epochs and no bump is lost.
   */
  lemma QuietIff(cfg: Config, m: TokenModel, ds: seq<Served>, lossy: bool)
    requires !m.Forgeable? && ds != []
    ensures (forall evs, sid :: Deployments(ds[0], evs) <= ds && (lossy || BumpsSucceed(evs)) ==>
               !FalseTrip(cfg, m, ds[0], evs, sid))
            <==> OneEpochPerKey(ds) && !lossy
  {
    if OneEpochPerKey(ds) && !lossy {
      forall evs, sid | Deployments(ds[0], evs) <= ds && (lossy || BumpsSucceed(evs))
        ensures !FalseTrip(cfg, m, ds[0], evs, sid)
      {
        PrefixOneEpoch(Deployments(ds[0], evs), ds);
        var s := Run(cfg, m, ds[0], evs);
        if TokenVerifies(s, sid) && sid !in s.db.spent { NoFalseTrip(cfg, m, ds[0], evs, sid); }
      }
    } else if lossy {
      var evs := DroppedBumpTrips(cfg, m, ds[0]);
      assert [ds[0]] <= ds;
      assert FalseTrip(cfg, m, ds[0], evs, 3);
    } else {
      var i, j :| 0 <= i < |ds| && 0 <= j < |ds| && ds[i].key == ds[j].key && ds[i].epoch != ds[j].epoch;
      var evs := ReusedKeyTrips(cfg, m, ds, if i < j then i else j, if i < j then j else i);
      assert FalseTrip(cfg, m, ds[0], evs, 3);
    }
  }

  lemma PrefixOneEpoch(pre: seq<Served>, ds: seq<Served>)
    requires pre <= ds && OneEpochPerKey(ds)
    ensures OneEpochPerKey(pre)
  {
    assert forall i :: 0 <= i < |pre| ==> pre[i] == ds[i];
  }
}
