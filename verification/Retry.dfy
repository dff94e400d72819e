/**
 * The desktop client's loop over hosts with one token, composed with `/v1/exec` while other
 * parties keep using the store.
 */
module Retry {
  import opened Prelude
  import opened Tables
  import opened SpendChain
  import opened Economy
  import opened IssueOnce
  import opened ZeroSum
  import opened Exec

  /**
   * What the transport does to one attempt.  A call that reaches the broker only after the client has
   * moved on counts as `NeverArrives` here; its spend is then one of the later transactions.
   */
  datatype Transport = Delivered | NeverArrives | ReplyLost

  /**
   * One attempt: what others commit before the broker resolves the host and between the resolve and
   * the spend, and what decides the call itself.
   */
  datatype Attempt = Attempt(before: seq<Txn>, between: seq<Txn>, transport: Transport, exec: ExecEnv)

  datatype Verdict =
    | Answered(host: HostAccount)
    | Conflict                         // HTTP 409: double spend, or a refused spend
    | Exhausted                        // no host gave a final word

  /** The store at the end, the client's verdict, and every host the token's job was forwarded to. */
  datatype Outcome = Outcome(db: Tables, verdict: Verdict, forwarded: seq<HostAccount>)

  /** What the client makes of one attempt. */
  datatype Sight = SawAnswer | SawConflict | SawError

  function SightOf(a: Attempt, r: ExecReply): Sight {
    if !a.transport.Delivered? then SawError
    else if r.Answer? then SawAnswer
    else if r.DoubleSpend? || r.RefusedSpend? then SawConflict
    else SawError
  }

  // ---- the two stores an attempt meets ----

  function ResolveStore(cfg: Config, t: Tables, a: Attempt): Tables { ApplyAll(cfg, t, a.before) }

  function SpendStore(cfg: Config, t: Tables, a: Attempt): Tables {
    ApplyAll(cfg, ResolveStore(cfg, t, a), a.between)
  }

  /** The call gets as far as the spend transaction. */
  predicate Reaches(cfg: Config, t: Tables, host: HostAccount, a: Attempt) {
    !a.transport.NeverArrives? && ReachesSpend(ResolveStore(cfg, t, a), host, a.exec)
  }

  /** The call burns the token. */
  predicate SpendsToken(cfg: Config, t: Tables, sid: SpendId, host: HostAccount, a: Attempt) {
    Reaches(cfg, t, host, a) && !a.exec.writeFault && SpendOutcomeOf(SpendStore(cfg, t, a), sid, a.exec.epoch).Spent?
  }

  /** The client hears from beyond the spend transaction. */
  predicate Decides(cfg: Config, t: Tables, host: HostAccount, a: Attempt) {
    a.transport.Delivered? && Reaches(cfg, t, host, a)
  }

  /** The hosts to which the transactions `xs` forward the job of token `sid`. */
  function Forwards(cfg: Config, t: Tables, sid: SpendId, xs: seq<Txn>): seq<HostAccount>
    decreases |xs|
  {
    if xs == [] then []
    else
      var x := xs[0];
      (if x.TSpend? && x.sid == sid && SpendOutcomeOf(t, sid, x.e).Spent? then [x.host] else [])
      + Forwards(cfg, Apply(cfg, t, x), sid, xs[1..])
  }

  datatype Tried = Tried(db: Tables, sight: Sight, forwarded: seq<HostAccount>)

  function Try(cfg: Config, t: Tables, sid: SpendId, host: HostAccount, a: Attempt): Tried {
    var r, t1 := ResolveStore(cfg, t, a), SpendStore(cfg, t, a);
    var others := Forwards(cfg, t, sid, a.before) + Forwards(cfg, r, sid, a.between);
    if a.transport.NeverArrives? then Tried(t1, SawError, others)
    else
      Tried(AfterExec(r, t1, sid, host, a.exec),
            SightOf(a, ReplyOf(r, t1, sid, host, a.exec)),
            others + (if SpendsToken(cfg, t, sid, host, a) then [host] else []))
  }

  /** Attempts `i`, `i+1`, ... of the loop. */
  function Attempts(cfg: Config, t: Tables, sid: SpendId, hosts: seq<HostAccount>,
                    env: nat -> Attempt, i: nat): Outcome
    requires i <= |hosts|
    decreases |hosts| - i
  {
    if i == |hosts| then Outcome(t, Exhausted, [])
    else
      var x := Try(cfg, t, sid, hosts[i], env(i));
      match x.sight
      case SawAnswer => Outcome(x.db, Answered(hosts[i]), x.forwarded)
      case SawConflict => Outcome(x.db, Conflict, x.forwarded)
      case SawError =>
        var rest := Attempts(cfg, x.db, sid, hosts, env, i + 1);
        rest.(forwarded := x.forwarded + rest.forwarded)
  }

  /** One round of the loop decides, or leaves the decision to the remaining rounds. */
  lemma AttemptUnfolds(cfg: Config, t: Tables, sid: SpendId, hosts: seq<HostAccount>,
                       env: nat -> Attempt, i: nat)
    requires i < |hosts|
    ensures var x, o := Try(cfg, t, sid, hosts[i], env(i)), Attempts(cfg, t, sid, hosts, env, i);
      match x.sight
      case SawAnswer => o == Outcome(x.db, Answered(hosts[i]), x.forwarded)
      case SawConflict => o == Outcome(x.db, Conflict, x.forwarded)
      case SawError =>
        var rest := Attempts(cfg, x.db, sid, hosts, env, i + 1);
        o == Outcome(rest.db, rest.verdict, x.forwarded + rest.forwarded)
  {}

  // ---- nothing already written is rewritten ----

  lemma ApplyPersists(cfg: Config, t: Tables, x: Txn)
    requires ChainInv(t)
    ensures Persists(t, Apply(cfg, t, x)) && ChainInv(Apply(cfg, t, x))
  {
    match x
    case TSpend(sid, host, e) => SpendPersists(t, sid, host, e);
    case TLegacy(sid, e) => LegacyPersists(t, sid, e);
    case TIngest(sid, row) => IngestPersists(cfg, t, sid, row);
    case TTrial(acct, day, e) => TrialOnlyIssues(cfg, t, acct, day, e);
    case _ =>
  }

  lemma {:induction false} ApplyAllPersists(cfg: Config, t: Tables, xs: seq<Txn>)
    requires ChainInv(t)
    ensures Persists(t, ApplyAll(cfg, t, xs)) && ChainInv(ApplyAll(cfg, t, xs))
    decreases |xs|
  {
    if xs != [] {
      ApplyPersists(cfg, t, xs[0]);
      ApplyAllPersists(cfg, Apply(cfg, t, xs[0]), xs[1..]);
    }
  }

  lemma TryPersists(cfg: Config, t: Tables, sid: SpendId, host: HostAccount, a: Attempt)
    requires ChainInv(t)
    ensures Persists(t, Try(cfg, t, sid, host, a).db) && ChainInv(Try(cfg, t, sid, host, a).db)
  {
    var t1 := SpendStore(cfg, t, a);
    ApplyAllPersists(cfg, t, a.before);
    ApplyAllPersists(cfg, ResolveStore(cfg, t, a), a.between);
    SpendPersists(t1, sid, host, a.exec.epoch);
  }

  /** Nothing recorded about any spend is rewritten by the loop or by what runs beside it. */
  lemma {:induction false} LoopPersists(cfg: Config, t: Tables, sid: SpendId,
                                        hosts: seq<HostAccount>, env: nat -> Attempt, i: nat)
    requires i <= |hosts| && ChainInv(t)
    ensures Persists(t, Attempts(cfg, t, sid, hosts, env, i).db)
    ensures ChainInv(Attempts(cfg, t, sid, hosts, env, i).db)
    decreases |hosts| - i
  {
    if i < |hosts| {
      TryPersists(cfg, t, sid, hosts[i], env(i));
      LoopPersists(cfg, Try(cfg, t, sid, hosts[i], env(i)).db, sid, hosts, env, i + 1);
    }
  }

  // ---- one token, one forward ----

  /** From `t` to `t'` the job was forwarded at most once, to the host the token is bound to. */
  ghost predicate Once(t: Tables, t': Tables, sid: SpendId, forwarded: seq<HostAccount>) {
    && Persists(t, t')
    && |forwarded| <= 1
    && (sid in t.spent ==> forwarded == [])
    && (forwarded != [] <==> sid !in t.spendHost && sid in t'.spendHost)
    && (forwarded != [] ==> sid in t'.spent && t'.spendHost[sid] == forwarded[0])
  }

  lemma OnceThen(t: Tables, u: Tables, v: Tables, sid: SpendId, f: seq<HostAccount>, g: seq<HostAccount>)
    requires Once(t, u, sid, f) && Once(u, v, sid, g)
    ensures Once(t, v, sid, f + g)
  {
    if f != [] { assert f + g == f; } else { assert f + g == g; }
  }

  lemma OthersBindNothing(cfg: Config, t: Tables, x: Txn)
    requires !x.TSpend?
    ensures Apply(cfg, t, x).spendHost == t.spendHost
  {
    match x
    case TIngest(sid, row) => assert IngestTxn(cfg, t, sid, row).spendHost == t.spendHost;
    case TTrial(acct, day, e) => assert TrialTxn(cfg, t, acct, day, e).spendHost == t.spendHost;
    case _ =>
  }

  lemma SpendOnce(t: Tables, sid: SpendId, x: Txn)
    requires ChainInv(t) && x.TSpend?
    ensures Once(t, SpendTxn(t, x.sid, x.host, x.e), sid,
                 if x.sid == sid && SpendOutcomeOf(t, sid, x.e).Spent? then [x.host] else [])
  {
    SpendPersists(t, x.sid, x.host, x.e);
    SpendBurns(t, x.sid, x.host, x.e);
  }

  lemma TxnOnce(cfg: Config, t: Tables, sid: SpendId, x: Txn)
    requires ChainInv(t)
    ensures Once(t, Apply(cfg, t, x), sid,
                 if x.TSpend? && x.sid == sid && SpendOutcomeOf(t, sid, x.e).Spent? then [x.host] else [])
  {
    if x.TSpend? {
      SpendOnce(t, sid, x);
    } else {
      ApplyPersists(cfg, t, x);
      OthersBindNothing(cfg, t, x);
    }
  }

  lemma {:induction false} ForwardsOnce(cfg: Config, t: Tables, sid: SpendId, xs: seq<Txn>)
    requires ChainInv(t)
    ensures Once(t, ApplyAll(cfg, t, xs), sid, Forwards(cfg, t, sid, xs))
    decreases |xs|
  {
    if xs != [] {
      var x, u := xs[0], Apply(cfg, t, xs[0]);
      var head := if x.TSpend? && x.sid == sid && SpendOutcomeOf(t, sid, x.e).Spent? then [x.host] else [];
      ApplyPersists(cfg, t, x);
      TxnOnce(cfg, t, sid, x);
      ForwardsOnce(cfg, u, sid, xs[1..]);
      OnceThen(t, u, ApplyAll(cfg, t, xs), sid, head, Forwards(cfg, u, sid, xs[1..]));
    }
  }

  lemma OwnSpendOnce(cfg: Config, t: Tables, sid: SpendId, host: HostAccount, a: Attempt)
    requires ChainInv(SpendStore(cfg, t, a)) && !a.transport.NeverArrives?
    ensures Once(SpendStore(cfg, t, a), Try(cfg, t, sid, host, a).db, sid,
                 if SpendsToken(cfg, t, sid, host, a) then [host] else [])
  {
    SpendPersists(SpendStore(cfg, t, a), sid, host, a.exec.epoch);
  }

  lemma TryOnce(cfg: Config, t: Tables, sid: SpendId, host: HostAccount, a: Attempt)
    requires ChainInv(t)
    ensures var x := Try(cfg, t, sid, host, a);
      Once(t, x.db, sid, x.forwarded) && (x.sight.SawAnswer? ==> x.forwarded == [host])
  {
    var r, t1 := ResolveStore(cfg, t, a), SpendStore(cfg, t, a);
    var f, g := Forwards(cfg, t, sid, a.before), Forwards(cfg, r, sid, a.between);
    ApplyAllPersists(cfg, t, a.before);
    ApplyAllPersists(cfg, r, a.between);
    ForwardsOnce(cfg, t, sid, a.before);
    ForwardsOnce(cfg, r, sid, a.between);
    OnceThen(t, r, t1, sid, f, g);
    if !a.transport.NeverArrives? {
      var own := if SpendsToken(cfg, t, sid, host, a) then [host] else [];
      OwnSpendOnce(cfg, t, sid, host, a);
      OnceThen(t, t1, Try(cfg, t, sid, host, a).db, sid, f + g, own);
    }
  }

  lemma {:induction false} LoopOnce(cfg: Config, t: Tables, sid: SpendId,
                                    hosts: seq<HostAccount>, env: nat -> Attempt, i: nat)
    requires i <= |hosts| && ChainInv(t)
    ensures var o := Attempts(cfg, t, sid, hosts, env, i);
      Once(t, o.db, sid, o.forwarded) && (o.verdict.Answered? ==> o.forwarded == [o.verdict.host])
    decreases |hosts| - i
  {
    if i < |hosts| {
      var x := Try(cfg, t, sid, hosts[i], env(i));
      AttemptUnfolds(cfg, t, sid, hosts, env, i);
      TryOnce(cfg, t, sid, hosts[i], env(i));
      TryPersists(cfg, t, sid, hosts[i], env(i));
      if x.sight.SawError? {
        var rest := Attempts(cfg, x.db, sid, hosts, env, i + 1);
        LoopOnce(cfg, x.db, sid, hosts, env, i + 1);
        OnceThen(t, x.db, rest.db, sid, x.forwarded, rest.forwarded);
      }
    }
  }

  /**
   * The safety of reusing one token.  Over any host list, with anything committed before, inside and
   * after each call, late calls of timed-out attempts and other holders of the token included, its
   * job is forwarded at most once, to the host it is bound to, and an answer comes from that host.
   */
  lemma ForwardedAtMostOnce(cfg: Config, t: Tables, sid: SpendId,
                            hosts: seq<HostAccount>, env: nat -> Attempt, later: seq<Txn>)
    requires ChainInv(t)
    ensures var o := Attempts(cfg, t, sid, hosts, env, 0);
      var all, end := o.forwarded + Forwards(cfg, o.db, sid, later), ApplyAll(cfg, o.db, later);
      && |all| <= 1
      && (sid in t.spent ==> all == [])
      && (all != [] <==> sid !in t.spendHost && sid in end.spendHost)
      && (all != [] ==> end.spendHost[sid] == all[0])
      && (o.verdict.Answered? ==> all == [o.verdict.host])
  {
    var o := Attempts(cfg, t, sid, hosts, env, 0);
    LoopOnce(cfg, t, sid, hosts, env, 0);
    LoopPersists(cfg, t, sid, hosts, env, 0);
    ForwardsOnce(cfg, o.db, sid, later);
    OnceThen(t, o.db, ApplyAll(cfg, o.db, later), sid, o.forwarded, Forwards(cfg, o.db, sid, later));
  }

  // ---- when the client is wrong about its token ----

  /** The client drops its token on an answer or a 409. */
  predicate Pops(v: Verdict) { v.Answered? || v.Conflict? }

  /** The store before attempt `j`, had the loop come that far from attempt `i`. */
  function StoreAt(cfg: Config, t: Tables, sid: SpendId, hosts: seq<HostAccount>,
                   env: nat -> Attempt, i: nat, j: nat): Tables
    requires i <= j <= |hosts|
    decreases j - i
  {
    if i == j then t
    else StoreAt(cfg, Try(cfg, t, sid, hosts[i], env(i)).db, sid, hosts, env, i + 1, j)
  }

  /** One of the transactions burns the token. */
  predicate BurnedBy(cfg: Config, t: Tables, sid: SpendId, xs: seq<Txn>)
    decreases |xs|
  {
    xs != [] &&
    (|| (xs[0].TLegacy? && xs[0].sid == sid)
     || (xs[0].TSpend? && xs[0].sid == sid && TripwireClear(t, xs[0].e))
     || BurnedBy(cfg, Apply(cfg, t, xs[0]), sid, xs[1..]))
  }

  /** The token is burned during an attempt, by the attempt or beside it. */
  predicate BurnedDuring(cfg: Config, t: Tables, sid: SpendId, host: HostAccount, a: Attempt) {
    || BurnedBy(cfg, t, sid, a.before)
    || BurnedBy(cfg, ResolveStore(cfg, t, a), sid, a.between)
    || (Reaches(cfg, t, host, a) && !a.exec.writeFault && TripwireClear(SpendStore(cfg, t, a), a.exec.epoch))
  }

  /** The attempt leaves the client without an answer or a 409. */
  predicate Inconclusive(cfg: Config, t: Tables, sid: SpendId, host: HostAccount, a: Attempt) {
    Decides(cfg, t, host, a) ==> SpendsToken(cfg, t, sid, host, a) && !a.exec.delivery.HostAnswers?
  }

  lemma OneBurns(cfg: Config, t: Tables, sid: SpendId, x: Txn)
    ensures sid in Apply(cfg, t, x).spent <==>
      || sid in t.spent
      || (x.TLegacy? && x.sid == sid)
      || (x.TSpend? && x.sid == sid && TripwireClear(t, x.e))
  {
    if x.TSpend? {
      SpendBurns(t, x.sid, x.host, x.e);
    } else if !x.TLegacy? {
      OthersBurnNothing(cfg, t, x);
    }
  }

  lemma SpendBurns(t: Tables, sid: SpendId, host: HostAccount, e: Epoch)
    ensures SpendTxn(t, sid, host, e).spent
         == if sid !in t.spent && TripwireClear(t, e) then t.spent[sid := e] else t.spent
  {}

  lemma OthersBurnNothing(cfg: Config, t: Tables, x: Txn)
    requires !x.TSpend? && !x.TLegacy?
    ensures Apply(cfg, t, x).spent == t.spent
  {
    match x
    case TIngest(sid, row) => assert IngestTxn(cfg, t, sid, row).spent == t.spent;
    case TTrial(acct, day, e) => assert TrialTxn(cfg, t, acct, day, e).spent == t.spent;
    case _ =>
  }

  lemma {:induction false} AllBurn(cfg: Config, t: Tables, sid: SpendId, xs: seq<Txn>)
    ensures sid in ApplyAll(cfg, t, xs).spent <==> sid in t.spent || BurnedBy(cfg, t, sid, xs)
    decreases |xs|
  {
    if xs != [] {
      OneBurns(cfg, t, sid, xs[0]);
      AllBurn(cfg, Apply(cfg, t, xs[0]), sid, xs[1..]);
    }
  }

  lemma AttemptBurns(cfg: Config, t: Tables, sid: SpendId, host: HostAccount, a: Attempt)
    ensures sid in Try(cfg, t, sid, host, a).db.spent <==>
      sid in t.spent || BurnedDuring(cfg, t, sid, host, a)
  {
    AllBurn(cfg, t, sid, a.before);
    AllBurn(cfg, ResolveStore(cfg, t, a), sid, a.between);
    ReplyTellsSpend(ResolveStore(cfg, t, a), SpendStore(cfg, t, a), sid, host, a.exec);
  }

  lemma SightIsError(cfg: Config, t: Tables, sid: SpendId, host: HostAccount, a: Attempt)
    ensures Try(cfg, t, sid, host, a).sight.SawError? <==> Inconclusive(cfg, t, sid, host, a)
  {}

  /** Does every attempt from `i` on leave the client without a final word? */
  ghost predicate AllInconclusive(cfg: Config, t: Tables, sid: SpendId, hosts: seq<HostAccount>,
                                  env: nat -> Attempt, i: nat)
    requires i <= |hosts|
  {
    forall j :: i <= j < |hosts| ==>
      Inconclusive(cfg, StoreAt(cfg, t, sid, hosts, env, i, j), sid, hosts[j], env(j))
  }

  ghost predicate SomeBurns(cfg: Config, t: Tables, sid: SpendId, hosts: seq<HostAccount>,
                            env: nat -> Attempt, i: nat)
    requires i <= |hosts|
  {
    exists j :: i <= j < |hosts| &&
      BurnedDuring(cfg, StoreAt(cfg, t, sid, hosts, env, i, j), sid, hosts[j], env(j))
  }

  lemma InconclusiveFrom(cfg: Config, t: Tables, sid: SpendId, hosts: seq<HostAccount>,
                         env: nat -> Attempt, i: nat)
    requires i < |hosts|
    ensures AllInconclusive(cfg, t, sid, hosts, env, i) <==>
      && Inconclusive(cfg, t, sid, hosts[i], env(i))
      && AllInconclusive(cfg, Try(cfg, t, sid, hosts[i], env(i)).db, sid, hosts, env, i + 1)
  {
    var u := Try(cfg, t, sid, hosts[i], env(i)).db;
    assert StoreAt(cfg, t, sid, hosts, env, i, i) == t;
    assert forall j :: i + 1 <= j < |hosts| ==>
      StoreAt(cfg, t, sid, hosts, env, i, j) == StoreAt(cfg, u, sid, hosts, env, i + 1, j);
  }

  lemma BurnsFrom(cfg: Config, t: Tables, sid: SpendId, hosts: seq<HostAccount>,
                  env: nat -> Attempt, i: nat)
    requires i < |hosts|
    ensures SomeBurns(cfg, t, sid, hosts, env, i) <==>
      || BurnedDuring(cfg, t, sid, hosts[i], env(i))
      || SomeBurns(cfg, Try(cfg, t, sid, hosts[i], env(i)).db, sid, hosts, env, i + 1)
  {
    var u := Try(cfg, t, sid, hosts[i], env(i)).db;
    assert StoreAt(cfg, t, sid, hosts, env, i, i) == t;
    assert forall j :: i + 1 <= j < |hosts| ==>
      StoreAt(cfg, t, sid, hosts, env, i, j) == StoreAt(cfg, u, sid, hosts, env, i + 1, j);
  }

  lemma {:induction false} KeptFrom(cfg: Config, t: Tables, sid: SpendId,
                                    hosts: seq<HostAccount>, env: nat -> Attempt, i: nat)
    requires i <= |hosts|
    ensures var o := Attempts(cfg, t, sid, hosts, env, i);
      && (!Pops(o.verdict) <==> AllInconclusive(cfg, t, sid, hosts, env, i))
      && (!Pops(o.verdict) ==>
            (sid in o.db.spent <==> sid in t.spent || SomeBurns(cfg, t, sid, hosts, env, i)))
    decreases |hosts| - i
  {
    if i < |hosts| {
      var x := Try(cfg, t, sid, hosts[i], env(i));
      AttemptUnfolds(cfg, t, sid, hosts, env, i);
      SightIsError(cfg, t, sid, hosts[i], env(i));
      AttemptBurns(cfg, t, sid, hosts[i], env(i));
      InconclusiveFrom(cfg, t, sid, hosts, env, i);
      BurnsFrom(cfg, t, sid, hosts, env, i);
      KeptFrom(cfg, x.db, sid, hosts, env, i + 1);
    }
  }

  /**
   * Exactly when the client keeps a token that is burned: no attempt that reports back from beyond
   * the spend does anything but spend without delivering, and the token was burned before the loop,
   * by one of its calls, or beside one of them.
   */
  lemma KeptAndBurnedIff(cfg: Config, t: Tables, sid: SpendId, hosts: seq<HostAccount>, env: nat -> Attempt)
    ensures var o := Attempts(cfg, t, sid, hosts, env, 0);
      !Pops(o.verdict) && sid in o.db.spent <==>
        && (forall j :: 0 <= j < |hosts| ==>
              Inconclusive(cfg, StoreAt(cfg, t, sid, hosts, env, 0, j), sid, hosts[j], env(j)))
        && (sid in t.spent
            || exists j :: 0 <= j < |hosts| &&
                 BurnedDuring(cfg, StoreAt(cfg, t, sid, hosts, env, 0, j), sid, hosts[j], env(j)))
  {
    KeptFrom(cfg, t, sid, hosts, env, 0);
  }

  /** Attempt `j` is the first to report back from beyond the spend. */
  ghost predicate FirstDecides(cfg: Config, t: Tables, sid: SpendId, hosts: seq<HostAccount>,
                               env: nat -> Attempt, i: nat, j: nat)
    requires i <= j < |hosts|
  {
    && Decides(cfg, StoreAt(cfg, t, sid, hosts, env, i, j), hosts[j], env(j))
    && forall k :: i <= k < j ==> !Decides(cfg, StoreAt(cfg, t, sid, hosts, env, i, k), hosts[k], env(k))
  }

  /** The spend transaction of the attempt is refused although the token is unspent. */
  predicate RefusedUnspent(cfg: Config, t: Tables, sid: SpendId, a: Attempt) {
    var t1 := SpendStore(cfg, t, a);
    sid !in t1.spent && (a.exec.writeFault || !TripwireClear(t1, a.exec.epoch))
  }

  ghost predicate FirstIsRefused(cfg: Config, t: Tables, sid: SpendId, hosts: seq<HostAccount>,
                                 env: nat -> Attempt, i: nat)
    requires i <= |hosts|
  {
    exists j :: i <= j < |hosts| && FirstDecides(cfg, t, sid, hosts, env, i, j)
      && RefusedUnspent(cfg, StoreAt(cfg, t, sid, hosts, env, i, j), sid, env(j))
  }

  lemma FirstFrom(cfg: Config, t: Tables, sid: SpendId, hosts: seq<HostAccount>,
                  env: nat -> Attempt, i: nat, j: nat)
    requires i < |hosts| && !Decides(cfg, t, hosts[i], env(i)) && i + 1 <= j < |hosts|
    ensures var u := Try(cfg, t, sid, hosts[i], env(i)).db;
      && StoreAt(cfg, t, sid, hosts, env, i, j) == StoreAt(cfg, u, sid, hosts, env, i + 1, j)
      && (FirstDecides(cfg, t, sid, hosts, env, i, j) <==> FirstDecides(cfg, u, sid, hosts, env, i + 1, j))
  {
    var u := Try(cfg, t, sid, hosts[i], env(i)).db;
    assert StoreAt(cfg, t, sid, hosts, env, i, i) == t;
    assert forall k :: i + 1 <= k < j ==>
      StoreAt(cfg, t, sid, hosts, env, i, k) == StoreAt(cfg, u, sid, hosts, env, i + 1, k);
  }

  lemma RefusedLater(cfg: Config, t: Tables, sid: SpendId, hosts: seq<HostAccount>,
                     env: nat -> Attempt, i: nat)
    requires i < |hosts| && !Decides(cfg, t, hosts[i], env(i))
    ensures FirstIsRefused(cfg, t, sid, hosts, env, i) <==>
      FirstIsRefused(cfg, Try(cfg, t, sid, hosts[i], env(i)).db, sid, hosts, env, i + 1)
  {
    assert StoreAt(cfg, t, sid, hosts, env, i, i) == t;
    forall j | i + 1 <= j < |hosts| {
      FirstFrom(cfg, t, sid, hosts, env, i, j);
    }
  }

  lemma RefusedNow(cfg: Config, t: Tables, sid: SpendId, hosts: seq<HostAccount>,
                   env: nat -> Attempt, i: nat)
    requires i < |hosts| && Decides(cfg, t, hosts[i], env(i))
    ensures FirstIsRefused(cfg, t, sid, hosts, env, i) <==> RefusedUnspent(cfg, t, sid, env(i))
  {
    assert StoreAt(cfg, t, sid, hosts, env, i, i) == t;
    assert FirstDecides(cfg, t, sid, hosts, env, i, i);
    forall j | i < j < |hosts| ensures !FirstDecides(cfg, t, sid, hosts, env, i, j) {
      assert Decides(cfg, StoreAt(cfg, t, sid, hosts, env, i, i), hosts[i], env(i));
    }
  }

  /** What an attempt that reports back does to the token and to the client. */
  lemma DecidedHere(cfg: Config, t: Tables, sid: SpendId, host: HostAccount, a: Attempt)
    requires Decides(cfg, t, host, a)
    ensures var x := Try(cfg, t, sid, host, a);
      && (sid !in x.db.spent <==> RefusedUnspent(cfg, t, sid, a))
      && (RefusedUnspent(cfg, t, sid, a) ==> x.sight.SawConflict?)
  {
    ReplyTellsSpend(ResolveStore(cfg, t, a), SpendStore(cfg, t, a), sid, host, a.exec);
  }

  lemma {:induction false} PoppedFrom(cfg: Config, t: Tables, sid: SpendId,
                                      hosts: seq<HostAccount>, env: nat -> Attempt, i: nat)
    requires i <= |hosts| && ChainInv(t)
    ensures var o := Attempts(cfg, t, sid, hosts, env, i);
      Pops(o.verdict) && sid !in o.db.spent <==> FirstIsRefused(cfg, t, sid, hosts, env, i)
    decreases |hosts| - i
  {
    if i < |hosts| {
      var x := Try(cfg, t, sid, hosts[i], env(i));
      AttemptUnfolds(cfg, t, sid, hosts, env, i);
      TryPersists(cfg, t, sid, hosts[i], env(i));
      if Decides(cfg, t, hosts[i], env(i)) {
        RefusedNow(cfg, t, sid, hosts, env, i);
        DecidedHere(cfg, t, sid, hosts[i], env(i));
        LoopPersists(cfg, x.db, sid, hosts, env, i + 1);
      } else {
        SightIsError(cfg, t, sid, hosts[i], env(i));
        RefusedLater(cfg, t, sid, hosts, env, i);
        PoppedFrom(cfg, x.db, sid, hosts, env, i + 1);
      }
    }
  }

  /**
   * Exactly when the client drops a token that is unspent: at the first attempt that reports back
   * from beyond the spend, the token is unspent and storage fails or the wire trips.
   */
  lemma PoppedAndUnspentIff(cfg: Config, t: Tables, sid: SpendId, hosts: seq<HostAccount>, env: nat -> Attempt)
    requires ChainInv(t)
    ensures var o := Attempts(cfg, t, sid, hosts, env, 0);
      Pops(o.verdict) && sid !in o.db.spent <==>
        exists j :: 0 <= j < |hosts| && FirstDecides(cfg, t, sid, hosts, env, 0, j)
          && RefusedUnspent(cfg, StoreAt(cfg, t, sid, hosts, env, 0, j), sid, env(j))
  {
    PoppedFrom(cfg, t, sid, hosts, env, 0);
  }

  // ---- when the client gets its answer ----

  /** Attempt `j` delivers an answer to a spend of its own, and no earlier one told the client anything final. */
  ghost predicate FirstAnswers(cfg: Config, t: Tables, sid: SpendId, hosts: seq<HostAccount>,
                               env: nat -> Attempt, i: nat, j: nat)
    requires i <= j < |hosts|
  {
    && (forall k :: i <= k < j ==>
          Inconclusive(cfg, StoreAt(cfg, t, sid, hosts, env, i, k), sid, hosts[k], env(k)))
    && AnswersNow(cfg, StoreAt(cfg, t, sid, hosts, env, i, j), sid, hosts[j], env(j))
  }

  predicate AnswersNow(cfg: Config, t: Tables, sid: SpendId, host: HostAccount, a: Attempt) {
    a.transport == Delivered && SpendsToken(cfg, t, sid, host, a) && a.exec.delivery == HostAnswers
  }

  lemma SightIsAnswer(cfg: Config, t: Tables, sid: SpendId, host: HostAccount, a: Attempt)
    ensures Try(cfg, t, sid, host, a).sight.SawAnswer? <==> AnswersNow(cfg, t, sid, host, a)
    ensures AnswersNow(cfg, t, sid, host, a) ==> !Inconclusive(cfg, t, sid, host, a)
  {
    ReplyExactly(ResolveStore(cfg, t, a), SpendStore(cfg, t, a), sid, host, a.exec);
  }

  lemma AnswersLater(cfg: Config, t: Tables, sid: SpendId, hosts: seq<HostAccount>, env: nat -> Attempt, i: nat, j: nat)
    requires i < j < |hosts|
    ensures FirstAnswers(cfg, t, sid, hosts, env, i, j) <==>
      && Inconclusive(cfg, t, sid, hosts[i], env(i))
      && FirstAnswers(cfg, Try(cfg, t, sid, hosts[i], env(i)).db, sid, hosts, env, i + 1, j)
  {
    var u := Try(cfg, t, sid, hosts[i], env(i)).db;
    assert StoreAt(cfg, t, sid, hosts, env, i, i) == t;
    assert forall k :: i + 1 <= k <= j ==>
      StoreAt(cfg, t, sid, hosts, env, i, k) == StoreAt(cfg, u, sid, hosts, env, i + 1, k);
  }

  lemma {:induction false} AnsweredFrom(cfg: Config, t: Tables, sid: SpendId, hosts: seq<HostAccount>,
                                        env: nat -> Attempt, i: nat)
    requires i <= |hosts|
    ensures var o := Attempts(cfg, t, sid, hosts, env, i);
      && (o.verdict.Answered? ==> exists j :: i <= j < |hosts| && FirstAnswers(cfg, t, sid, hosts, env, i, j))
      && (forall j :: i <= j < |hosts| && FirstAnswers(cfg, t, sid, hosts, env, i, j) ==>
            o.verdict == Answered(hosts[j]))
    decreases |hosts| - i
  {
    if i < |hosts| {
      var x := Try(cfg, t, sid, hosts[i], env(i));
      AttemptUnfolds(cfg, t, sid, hosts, env, i);
      SightIsAnswer(cfg, t, sid, hosts[i], env(i));
      SightIsError(cfg, t, sid, hosts[i], env(i));
      assert StoreAt(cfg, t, sid, hosts, env, i, i) == t;
      if x.sight.SawError? { AnsweredFrom(cfg, x.db, sid, hosts, env, i + 1); }
      forall j | i < j < |hosts|
        ensures FirstAnswers(cfg, t, sid, hosts, env, i, j) <==>
          Inconclusive(cfg, t, sid, hosts[i], env(i)) && FirstAnswers(cfg, x.db, sid, hosts, env, i + 1, j)
      {
        AnswersLater(cfg, t, sid, hosts, env, i, j);
      }
      if AnswersNow(cfg, t, sid, hosts[i], env(i)) {
        assert FirstAnswers(cfg, t, sid, hosts, env, i, i);
      } else if Attempts(cfg, t, sid, hosts, env, i).verdict.Answered? {
        var j :| i + 1 <= j < |hosts| && FirstAnswers(cfg, x.db, sid, hosts, env, i + 1, j);
        assert FirstAnswers(cfg, t, sid, hosts, env, i, j);
      }
    }
  }

  /**
   * Exactly when the client gets an answer, and whose: some attempt delivers an answer to a spend of its
   * own, and none before it gave the client a final word.
   */
  lemma AnsweredIff(cfg: Config, t: Tables, sid: SpendId, hosts: seq<HostAccount>, env: nat -> Attempt)
    ensures var o := Attempts(cfg, t, sid, hosts, env, 0);
      && (o.verdict.Answered? <==> exists j :: 0 <= j < |hosts| && FirstAnswers(cfg, t, sid, hosts, env, 0, j))
      && (forall j :: 0 <= j < |hosts| && FirstAnswers(cfg, t, sid, hosts, env, 0, j) ==>
            o.verdict == Answered(hosts[j]))
  {
    AnsweredFrom(cfg, t, sid, hosts, env, 0);
  }

  // ---- both happen ----

  /** A run after which one honest token is unspent and `host` is registered as `entry`. */
  lemma TokenAndHost(cfg: Config, c: Served, host: HostAccount, entry: HostEntry) returns (evs: seq<Event>)
    ensures var s := Run(cfg, FromReleased, c, evs);
      && s.epoch == c.epoch && TokenVerifies(s, 3) && s.db.spent == map[]
      && host in s.db.hosts && s.db.hosts[host] == entry
      && CounterOf(s.db, c.epoch) == CounterRow(1, 0, 0)
  {
    evs := IssueOneToken(cfg, FromReleased, c, [], false);
    evs := Play(cfg, FromReleased, c, evs, HostUpdate(host, entry));
  }

  /** An attempt over dial-in whose host does not deliver. */
  function LoneAttempt(epoch: Epoch, writeFault: bool): Attempt {
    Attempt([], [], Delivered, ExecEnv(epoch, true, false, NoSocket, writeFault, HostFails))
  }

  predicate DialIn(entry: HostEntry) { entry.active && entry.ingressAddr != TUNNEL_SENTINEL_ADDR }

  /** The token kept after the last host failed to deliver is already burned. */
  lemma KeptTokenCanBeBurned(cfg: Config, c: Served, host: HostAccount, entry: HostEntry)
    returns (evs: seq<Event>)
    requires DialIn(entry)
    ensures var s := Run(cfg, FromReleased, c, evs);
      var o := Attempts(cfg, s.db, 3, [host], _ => LoneAttempt(c.epoch, false), 0);
      TokenVerifies(s, 3) && 3 !in s.db.spent && !Pops(o.verdict) && 3 in o.db.spent
  {
    evs := TokenAndHost(cfg, c, host, entry);
    var t := Run(cfg, FromReleased, c, evs).db;
    var env: nat -> Attempt := _ => LoneAttempt(c.epoch, false);
    var a := env(0);
    assert Routable(t, host, NoSocket);
    assert SpendOutcomeOf(t, 3, c.epoch).Spent?;
    assert ResolveStore(cfg, t, a) == t && SpendStore(cfg, t, a) == t;
    var x := Try(cfg, t, 3, host, a);
    SpendBurns(t, 3, host, c.epoch);
    assert x.sight.SawError? && 3 in x.db.spent;
    assert Attempts(cfg, x.db, 3, [host], env, 1) == Outcome(x.db, Exhausted, []);
    AttemptUnfolds(cfg, t, 3, [host], env, 0);
  }

  /** The token popped after a refused spend is still unspent: that credit is lost to the client. */
  lemma PoppedTokenCanBeUnspent(cfg: Config, c: Served, host: HostAccount, entry: HostEntry)
    returns (evs: seq<Event>)
    requires DialIn(entry)
    ensures var s := Run(cfg, FromReleased, c, evs);
      var o := Attempts(cfg, s.db, 3, [host], _ => LoneAttempt(c.epoch, true), 0);
      TokenVerifies(s, 3) && Pops(o.verdict) && 3 !in o.db.spent
  {
    evs := TokenAndHost(cfg, c, host, entry);
    var t := Run(cfg, FromReleased, c, evs).db;
    var env: nat -> Attempt := _ => LoneAttempt(c.epoch, true);
    var a := env(0);
    assert Routable(t, host, NoSocket);
    assert ResolveStore(cfg, t, a) == t && SpendStore(cfg, t, a) == t;
    assert ReplyOf(t, t, 3, host, a.exec).RefusedSpend?;
    AttemptUnfolds(cfg, t, 3, [host], env, 0);
  }

  // ---- the client itself ----

  datatype HostView = HostView(account: HostAccount, hasModels: bool)

  function AccountsOf(hosts: seq<HostView>): seq<HostAccount> {
    if hosts == [] then [] else [hosts[0].account] + AccountsOf(hosts[1..])
  }

  function Having(hosts: seq<HostView>, models: bool): seq<HostView> {
    if hosts == [] then []
    else (if hosts[0].hasModels == models then [hosts[0]] else []) + Having(hosts[1..], models)
  }

  /** The sort by "has no models". */
  function ModelsFirst(hosts: seq<HostView>): seq<HostView> { Having(hosts, true) + Having(hosts, false) }

  function PreferModels(hosts: seq<HostView>): seq<HostAccount> { AccountsOf(ModelsFirst(hosts)) }

  lemma HavingCons(x: HostView, rest: seq<HostView>, models: bool)
    ensures Having([x] + rest, models) == (if x.hasModels == models then [x] else []) + Having(rest, models)
  {
    assert ([x] + rest)[1..] == rest;
  }

  lemma {:induction false} HavingOnly(hosts: seq<HostView>, models: bool)
    ensures forall i :: 0 <= i < |Having(hosts, models)| ==> Having(hosts, models)[i].hasModels == models
    ensures Having(Having(hosts, models), models) == Having(hosts, models)
    ensures Having(Having(hosts, models), !models) == []
  {
    if hosts != [] {
      HavingOnly(hosts[1..], models);
      if hosts[0].hasModels == models {
        HavingCons(hosts[0], Having(hosts[1..], models), models);
        HavingCons(hosts[0], Having(hosts[1..], models), !models);
      } else {
        assert Having(hosts, models) == Having(hosts[1..], models);
      }
    }
  }

  lemma {:induction false} HavingAppend(a: seq<HostView>, b: seq<HostView>, models: bool)
    ensures Having(a + b, models) == Having(a, models) + Having(b, models)
  {
    if a == [] {
      assert a + b == b;
    } else {
      var rest, head := a[1..], if a[0].hasModels == models then [a[0]] else [];
      HavingAppend(rest, b, models);
      HavingCons(a[0], rest + b, models);
      Regroup([a[0]], rest, b);
      assert a == [a[0]] + rest;
      Regroup(head, Having(rest, models), Having(b, models));
    }
  }

  lemma {:induction false} HavingSplits(hosts: seq<HostView>)
    ensures multiset(Having(hosts, true)) + multiset(Having(hosts, false)) == multiset(hosts)
  {
    if hosts != [] {
      HavingSplits(hosts[1..]);
      assert hosts == [hosts[0]] + hosts[1..];
    }
  }

  /**
   * The order in which hosts are tried is a stable sort of the snapshot: every host gets its turn,
   * hosts with a model come first, and within each kind the snapshot order is kept.
   */
  lemma ModelsFirstIsStableSort(hosts: seq<HostView>)
    ensures var order := ModelsFirst(hosts);
      && multiset(order) == multiset(hosts)
      && (forall i, j :: 0 <= i < j < |order| && !order[i].hasModels ==> !order[j].hasModels)
      && (forall models :: Having(order, models) == Having(hosts, models))
  {
    HavingSplits(hosts);
    HavingOnly(hosts, true);
    HavingOnly(hosts, false);
    forall models ensures Having(ModelsFirst(hosts), models) == Having(hosts, models) {
      HavingAppend(Having(hosts, true), Having(hosts, false), models);
    }
  }

  lemma {:induction false} AccountsInOrder(hosts: seq<HostView>)
    ensures |AccountsOf(hosts)| == |hosts|
    ensures forall i :: 0 <= i < |hosts| ==> AccountsOf(hosts)[i] == hosts[i].account
  {
    if hosts != [] {
      AccountsInOrder(hosts[1..]);
      assert forall i :: 0 < i < |hosts| ==> hosts[i] == hosts[1..][i - 1];
    }
  }

  /** The hosts are tried in the order of the sort, each once. */
  lemma TriedInSortedOrder(hosts: seq<HostView>)
    ensures |PreferModels(hosts)| == |hosts| == |ModelsFirst(hosts)|
    ensures forall i :: 0 <= i < |hosts| ==> PreferModels(hosts)[i] == ModelsFirst(hosts)[i].account
  {
    ModelsFirstIsStableSort(hosts);
    assert |multiset(ModelsFirst(hosts))| == |multiset(hosts)|;
    AccountsInOrder(ModelsFirst(hosts));
  }

  datatype ChatResult =
    | ChatReply(host: HostAccount)
    | NoCredits
    | NoActiveHosts
    | SpentWithoutResult
    | NoHostCouldServe

  method TryHost(cfg: Config, broker: Broker, sid: SpendId, host: HostAccount, a: Attempt)
    returns (sight: Sight)
    requires broker.store.Valid()
    modifies broker.store
    ensures broker.store.Valid()
    ensures sight == Try(cfg, old(broker.store.db), sid, host, a).sight
    ensures broker.store.db == Try(cfg, old(broker.store.db), sid, host, a).db
  {
    broker.store.Meanwhile(cfg, a.before);
    if a.transport.NeverArrives? {
      broker.store.Meanwhile(cfg, a.between);
      return SawError;
    }
    var reply := broker.Exec(cfg, sid, host, a.between, a.exec);
    if a.transport.ReplyLost? { return SawError; }
    match reply {
      case Answer(_) => return SawAnswer;
      case DoubleSpend => return SawConflict;
      case RefusedSpend => return SawConflict;
      case _ => return SawError;
    }
  }

  function ResultOf(v: Verdict): ChatResult {
    match v
    case Answered(h) => ChatReply(h)
    case Conflict => SpentWithoutResult
    case Exhausted => NoHostCouldServe
  }

  class TokenStore {
    var tokens: seq<SpendId>

    constructor (ts: seq<SpendId>)
      ensures tokens == ts
    {
      tokens := ts;
    }

    method SendMessage(cfg: Config, broker: Broker, hosts: seq<HostView>, env: nat -> Attempt)
      returns (result: ChatResult)
      requires broker.store.Valid()
      modifies this, broker.store
      ensures broker.store.Valid()
      ensures old(tokens) == [] || hosts == [] ==>
                && tokens == old(tokens) && broker.store.db == old(broker.store.db)
                && result == (if old(tokens) == [] then NoCredits else NoActiveHosts)
      ensures old(tokens) != [] && hosts != [] ==>
                var o := Attempts(cfg, old(broker.store.db), old(tokens)[|old(tokens)| - 1],
                                  PreferModels(hosts), env, 0);
                && broker.store.db == o.db
                && tokens == (if Pops(o.verdict) then old(tokens)[..|old(tokens)| - 1] else old(tokens))
                && result == ResultOf(o.verdict)
                && (result.ChatReply? <==> o.verdict.Answered?)
                && (result.ChatReply? ==> result.host == o.verdict.host)
                && (result == SpentWithoutResult <==> o.verdict == Conflict)
                && (result == NoHostCouldServe <==> tokens == old(tokens))
    {
      if tokens == [] { return NoCredits; }
      if hosts == [] { return NoActiveHosts; }
      var order := PreferModels(hosts);
      var sid := tokens[|tokens| - 1];
      ghost var whole := Attempts(cfg, broker.store.db, sid, order, env, 0);
      var i := 0;
      while i < |order|
        invariant 0 <= i <= |order| && broker.store.Valid() && tokens == old(tokens)
        invariant whole.db == Attempts(cfg, broker.store.db, sid, order, env, i).db
        invariant whole.verdict == Attempts(cfg, broker.store.db, sid, order, env, i).verdict
      {
        AttemptUnfolds(cfg, broker.store.db, sid, order, env, i);
        var sight := TryHost(cfg, broker, sid, order[i], env(i));
        match sight {
          case SawAnswer =>
            tokens := tokens[..|tokens| - 1];
            return ChatReply(order[i]);
          case SawConflict =>
            tokens := tokens[..|tokens| - 1];
            return SpentWithoutResult;
          case SawError =>
        }
        i := i + 1;
      }
      return NoHostCouldServe;
    }
  }
}
