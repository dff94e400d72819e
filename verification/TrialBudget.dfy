/** The anti-Sybil boundary: one trial per account, a fixed number of credits per day. */
module TrialBudget {
  import opened Prelude
  import opened Tables
  import opened Economy
  import opened Flows
  import opened ZeroSum
  import IssueOnce

  /** The budget column cannot saturate. */
  predicate Headroom(cfg: Config) { cfg.dailyTrialBudget < U64_MAX || cfg.trialGrant == 0 }

  /** The budget column of a day is what was granted to the accounts recorded on it. */
  ghost predicate DayExact(cfg: Config, t: Tables, d: Day) {
    Get(t.trialBudget, d) == Times(cfg.trialGrant, |Fiber(t.trialAccts, d)|)
  }

  /** `n` grants. */
  function Times(grant: nat, n: nat): nat { if n == 0 then 0 else Times(grant, n - 1) + grant }

  lemma {:induction false} TimesIsProduct(grant: nat, n: nat)
    ensures Times(grant, n) == grant * n
  {
    if n > 0 {
      TimesIsProduct(grant, n - 1);
      Distribute(grant, n - 1);
    }
  }

  ghost predicate DayKept(cfg: Config, t: Tables, d: Day) {
    DayExact(cfg, t, d) && Get(t.trialBudget, d) <= cfg.dailyTrialBudget
  }

  ghost predicate DaysInv(cfg: Config, t: Tables) { forall d :: DayKept(cfg, t, d) }

  /** All trial credit, counted by accounts and counted by days. */
  ghost predicate TotalsInv(cfg: Config, t: Tables, total: nat) {
    total == Times(cfg.trialGrant, |t.trialAccts|) == Sum(t.trialBudget)
  }

  ghost predicate TrialInv(cfg: Config, s: State) {
    DaysInv(cfg, s.db) && TotalsInv(cfg, s.db, s.meter.trial)
  }

  /** `t'` records one more grant than `t`. */
  ghost predicate OneGrant(cfg: Config, t: Tables, acct: HostAccount, day: Day, t': Tables) {
    && acct !in t.trialAccts
    && t'.trialAccts == t.trialAccts[acct := day]
    && t'.trialBudget == t.trialBudget[day := Get(t.trialBudget, day) + cfg.trialGrant]
    && Get(t.trialBudget, day) + cfg.trialGrant <= cfg.dailyTrialBudget
  }

  lemma GrantIsOne(cfg: Config, t: Tables, acct: HostAccount, day: Day, e: Epoch)
    requires Headroom(cfg) && DayKept(cfg, t, day) && TrialOutcomeOf(cfg, t, acct, day).Granted?
    ensures OneGrant(cfg, t, acct, day, TrialTxn(cfg, t, acct, day, e))
  {
    TimesIsProduct(cfg.trialGrant, |Fiber(t.trialAccts, day)|);
  }

  lemma GrantDay(cfg: Config, t: Tables, acct: HostAccount, day: Day, t': Tables, d: Day)
    requires OneGrant(cfg, t, acct, day, t') && DayKept(cfg, t, d)
    ensures DayKept(cfg, t', d)
  {
    FiberInsert(t.trialAccts, acct, day);
  }

  lemma GrantTotals(cfg: Config, t: Tables, acct: HostAccount, day: Day, t': Tables, total: nat)
    requires OneGrant(cfg, t, acct, day, t') && TotalsInv(cfg, t, total)
    ensures TotalsInv(cfg, t', total + cfg.trialGrant)
  {
    AccountsTotal(cfg.trialGrant, t.trialAccts, acct, day, t'.trialAccts, total);
    DaysTotal(cfg.trialGrant, t.trialBudget, day, t'.trialBudget, total);
  }

  lemma AccountsTotal(grant: nat, accts: map<HostAccount, Day>, acct: HostAccount, day: Day,
                      accts': map<HostAccount, Day>, total: nat)
    requires acct !in accts && accts' == accts[acct := day] && total == Times(grant, |accts|)
    ensures total + grant == Times(grant, |accts'|)
  {
    InsertCard(accts, acct, day);
  }

  lemma DaysTotal(grant: nat, budget: map<Day, nat>, day: Day, budget': map<Day, nat>, total: nat)
    requires budget' == budget[day := Get(budget, day) + grant] && total == Sum(budget)
    ensures total + grant == Sum(budget')
  {
    SumUpdate(budget, day, Get(budget, day) + grant);
  }

  lemma GrantKeeps(cfg: Config, s: State, acct: HostAccount, day: Day)
    requires TrialInv(cfg, s) && Headroom(cfg)
    requires TrialOutcomeOf(cfg, s.db, acct, day).Granted?
    ensures TrialInv(cfg, TrialStep(cfg, s, acct, day))
  {
    var t := TrialTxn(cfg, s.db, acct, day, s.epoch);
    assert DayKept(cfg, s.db, day);
    GrantIsOne(cfg, s.db, acct, day, s.epoch);
    GrantTotals(cfg, s.db, acct, day, t, s.meter.trial);
    forall d ensures DayKept(cfg, t, d) {
      assert DayKept(cfg, s.db, d);
      GrantDay(cfg, s.db, acct, day, t, d);
    }
  }

  lemma TrialFrame(cfg: Config, s: State, s': State)
    requires TrialInv(cfg, s)
    requires s'.db.trialAccts == s.db.trialAccts && s'.db.trialBudget == s.db.trialBudget
    requires s'.meter.trial == s.meter.trial
    ensures TrialInv(cfg, s')
  {
    forall d ensures DayKept(cfg, s'.db, d) {
      assert DayKept(cfg, s.db, d);
    }
  }

  lemma OtherStepsGrantNothing(cfg: Config, m: TokenModel, s: State, ev: Event)
    requires !ev.Trial?
    ensures var s' := Step(cfg, m, s, ev);
      && s'.db.trialAccts == s.db.trialAccts && s'.db.trialBudget == s.db.trialBudget
      && s'.meter.trial == s.meter.trial
  {
    if Quiet(ev) {
      QuietFrame(cfg, m, s, ev);
    } else if ev.Debit? || ev.Refund? || ev.Observe? {
      HandlersGrantNothing(cfg, m, s, ev);
    }
  }

  lemma HandlersGrantNothing(cfg: Config, m: TokenModel, s: State, ev: Event)
    requires ev.Debit? || ev.Refund? || ev.Observe?
    ensures var s' := Step(cfg, m, s, ev);
      && s'.db.trialAccts == s.db.trialAccts && s'.db.trialBudget == s.db.trialBudget
      && s'.meter.trial == s.meter.trial
  {}

  lemma TrialStepKeeps(cfg: Config, m: TokenModel, s: State, ev: Event)
    requires TrialInv(cfg, s) && Headroom(cfg)
    ensures TrialInv(cfg, Step(cfg, m, s, ev))
  {
    if ev.Trial? {
      if Enabled(m, s, ev) && TrialOutcomeOf(cfg, s.db, ev.acct, ev.day).Granted? {
        GrantKeeps(cfg, s, ev.acct, ev.day);
      }
    } else {
      OtherStepsGrantNothing(cfg, m, s, ev);
      TrialFrame(cfg, s, Step(cfg, m, s, ev));
    }
  }

  lemma {:induction false} TrialAlways(cfg: Config, m: TokenModel, c: Served, evs: seq<Event>)
    requires Headroom(cfg)
    ensures TrialInv(cfg, Run(cfg, m, c, evs))
    decreases |evs|
  {
    if evs == [] {
      forall d ensures Fiber(Init(c).db.trialAccts, d) == {} {}
    } else {
      TrialAlways(cfg, m, c, evs[..|evs| - 1]);
      TrialStepKeeps(cfg, m, Run(cfg, m, c, evs[..|evs| - 1]), evs[|evs| - 1]);
    }
  }

  /** Every day's column is exact and within budget; the total is one grant per recorded account. */
  lemma BudgetRespected(cfg: Config, m: TokenModel, c: Served, evs: seq<Event>, d: Day)
    requires Headroom(cfg)
    ensures var s := Run(cfg, m, c, evs);
      && Get(s.db.trialBudget, d) == cfg.trialGrant * |Fiber(s.db.trialAccts, d)| <= cfg.dailyTrialBudget
      && s.meter.trial == cfg.trialGrant * |s.db.trialAccts|
  {
    TrialAlways(cfg, m, c, evs);
    var t := Run(cfg, m, c, evs).db;
    assert DayKept(cfg, t, d);
    TimesIsProduct(cfg.trialGrant, |Fiber(t.trialAccts, d)|);
    TimesIsProduct(cfg.trialGrant, |t.trialAccts|);
  }

  /** An account's trial record, once written, stands: a second grant is refused on every day. */
  lemma OneTrialPerAccount(cfg: Config, m: TokenModel, s: State, ev: Event, acct: HostAccount, day: Day)
    requires acct in s.db.trialAccts
    ensures acct in Step(cfg, m, s, ev).db.trialAccts
    ensures Step(cfg, m, s, ev).db.trialAccts[acct] == s.db.trialAccts[acct]
    ensures TrialStep(cfg, Step(cfg, m, s, ev), acct, day) == Step(cfg, m, s, ev)
  {}

  lemma {:induction false} TrialRecordStays(cfg: Config, m: TokenModel, c: Served, evs: seq<Event>, n: nat,
                                            acct: HostAccount)
    requires n <= |evs| && acct in Run(cfg, m, c, evs[..n]).db.trialAccts
    ensures acct in Run(cfg, m, c, evs).db.trialAccts
    decreases |evs|
  {
    if n == |evs| {
      assert evs[..n] == evs;
    } else {
      var pre := evs[..|evs| - 1];
      assert pre[..n] == evs[..n];
      TrialRecordStays(cfg, m, c, pre, n, acct);
      OneTrialPerAccount(cfg, m, Run(cfg, m, c, pre), evs[|evs| - 1], acct, 0);
    }
  }

  /** Does the step from `s` by `ev` grant `acct` its trial? */
  ghost predicate GrantsTrial(cfg: Config, s: State, ev: Event, acct: HostAccount) {
    ev.Trial? && ev.acct == acct && !ev.fault && TrialOutcomeOf(cfg, s.db, acct, ev.day).Granted?
  }

  lemma GrantRecorded(cfg: Config, m: TokenModel, c: Served, evs: seq<Event>, i: nat, acct: HostAccount)
    requires i < |evs| && GrantsTrial(cfg, Run(cfg, m, c, evs[..i]), evs[i], acct)
    ensures acct in Run(cfg, m, c, evs[..i + 1]).db.trialAccts
  {
    assert evs[..i + 1][..i] == evs[..i];
  }

  /** Over a whole run, on whatever days and through restarts, an account is granted at most once. */
  lemma GrantedAtMostOnce(cfg: Config, m: TokenModel, c: Served, evs: seq<Event>, i: nat, j: nat, acct: HostAccount)
    requires i < |evs| && j < |evs|
    requires GrantsTrial(cfg, Run(cfg, m, c, evs[..i]), evs[i], acct)
    requires GrantsTrial(cfg, Run(cfg, m, c, evs[..j]), evs[j], acct)
    ensures i == j
  {
    GrantRecorded(cfg, m, c, evs, i, acct);
    GrantRecorded(cfg, m, c, evs, j, acct);
    if i < j {
      assert evs[..j][..i + 1] == evs[..i + 1];
      TrialRecordStays(cfg, m, c, evs[..j], i + 1, acct);
    } else if j < i {
      assert evs[..i][..j + 1] == evs[..j + 1];
      TrialRecordStays(cfg, m, c, evs[..i], j + 1, acct);
    }
  }

  /**
   * Sybil loss is bounded by the daily budget: whatever any number of accounts and hosts do among
   * themselves, all balances together stay within the admin grants plus budget times days.
   */
  lemma SybilBound(cfg: Config, c: Served, evs: seq<Event>)
    requires Headroom(cfg)
    ensures var s := Run(cfg, FromReleased, c, evs);
      TotalBalance(s.db) <= AdminRequested(evs) + cfg.dailyTrialBudget * |s.db.trialBudget|
  {
    var s := Run(cfg, FromReleased, c, evs);
    StrictlyZeroSum(cfg, c, evs);
    TrialAlways(cfg, FromReleased, c, evs);
    forall d | d in s.db.trialBudget ensures s.db.trialBudget[d] <= cfg.dailyTrialBudget {
      assert DayKept(cfg, s.db, d);
    }
    SumBounded(s.db.trialBudget, cfg.dailyTrialBudget);
  }

  // ---- the budget must leave room below u64::MAX ----

  ghost predicate OnlyDayZero(cfg: Config, t: Tables, n: nat) {
    && |Fiber(t.trialAccts, 0)| == n
    && (forall a :: a in t.trialAccts ==> a < n)
    && Get(t.trialBudget, 0) == Min(Times(cfg.trialGrant, n), U64_MAX)
  }

  lemma OneMoreGrant(cfg: Config, t: Tables, n: nat, e: Epoch)
    requires cfg.dailyTrialBudget >= U64_MAX && OnlyDayZero(cfg, t, n)
    ensures TrialOutcomeOf(cfg, t, n, 0).Granted?
    ensures OnlyDayZero(cfg, TrialTxn(cfg, t, n, 0, e), n + 1)
  {
    FiberInsert(t.trialAccts, n, 0);
  }

  lemma {:induction false} EndlessGrants(cfg: Config, m: TokenModel, c: Served, n: nat) returns (evs: seq<Event>)
    requires cfg.dailyTrialBudget >= U64_MAX
    ensures OnlyDayZero(cfg, Run(cfg, m, c, evs).db, n)
  {
    evs := [];
    if n > 0 {
      evs := EndlessGrants(cfg, m, c, n - 1);
      var s := Run(cfg, m, c, evs);
      OneMoreGrant(cfg, s.db, n - 1, s.epoch);
      evs := IssueOnce.Play(cfg, m, c, evs, Trial(n - 1, 0, false));
    } else {
      assert Fiber(Init(c).db.trialAccts, 0) == {};
    }
  }

  /** With the budget at u64::MAX the gate never closes and the column stops being exact. */
  lemma FullBudgetBreaksExactness(cfg: Config, m: TokenModel, c: Served) returns (evs: seq<Event>)
    requires !Headroom(cfg)
    ensures !DayExact(cfg, Run(cfg, m, c, evs).db, 0)
  {
    evs := EndlessGrants(cfg, m, c, U64_MAX + 1);
    TimesIsProduct(cfg.trialGrant, U64_MAX + 1);
  }

  /** The column is exact in every run precisely when it has headroom. */
  lemma ExactIffHeadroom(cfg: Config, m: TokenModel, c: Served)
    ensures (forall evs, d :: DayExact(cfg, Run(cfg, m, c, evs).db, d)) <==> Headroom(cfg)
  {
    if Headroom(cfg) {
      forall evs, d ensures DayExact(cfg, Run(cfg, m, c, evs).db, d) {
        TrialAlways(cfg, m, c, evs);
        assert DayKept(cfg, Run(cfg, m, c, evs).db, d);
      }
    } else {
      var evs := FullBudgetBreaksExactness(cfg, m, c);
      assert !DayExact(cfg, Run(cfg, m, c, evs).db, 0);
    }
  }
}
