/** `/v1/exec`: resolve the host, reserve a route, burn the token, forward. */
module Exec {
  import opened Prelude
  import opened Tables
  import opened DurableStore

  const TUNNEL_SENTINEL_ADDR: string := "https://tunnel.invalid"

  /** The outcome of asking the tunnel directory for a slot, before any spend. */
  datatype Reservation = NoSocket | AtCapacity | Reserved

  datatype ExecReply =
    | Answer(host: HostAccount)    // 200, produced by this host
    | NoHost                       // 502 before spending
    | Upstream                     // 502 after spending
    | DoubleSpend                  // 409
    | RefusedSpend                 // 409, tripwire or storage fault
    | TokenInvalid                 // 422
    | Internal                     // 500, before or after spending

  /** What becomes of the forwarded job. */
  datatype Delivery = HostAnswers | HostFails | NotEncodable

  /** Everything outside the store that decides one call; `epoch` is that of the serving process. */
  datatype ExecEnv = ExecEnv(
    epoch: Epoch,
    tokenVerifies: bool,
    readFault: bool,
    reservation: Reservation,
    writeFault: bool,
    delivery: Delivery)

  function ResolveActiveHost(t: Tables, host: HostAccount): Option<string> {
    if host in t.hosts && t.hosts[host].active then Some(t.hosts[host].ingressAddr) else None
  }

  /** Is there somewhere to send the job? */
  predicate Routable(t: Tables, host: HostAccount, r: Reservation) {
    && ResolveActiveHost(t, host).Some?
    && (r.Reserved? || (r.NoSocket? && ResolveActiveHost(t, host).value != TUNNEL_SENTINEL_ADDR))
  }

  /** The host is resolved in the store `r`: does the call get as far as the spend transaction? */
  predicate ReachesSpend(r: Tables, host: HostAccount, env: ExecEnv) {
    env.tokenVerifies && !env.readFault && Routable(r, host, env.reservation)
  }

  /** Other requests may commit between the resolve in `r` and the spend in `t`. */
  predicate Spends(r: Tables, t: Tables, sid: SpendId, host: HostAccount, env: ExecEnv) {
    ReachesSpend(r, host, env) && !env.writeFault && SpendOutcomeOf(t, sid, env.epoch).Spent?
  }

  function ReplyOf(r: Tables, t: Tables, sid: SpendId, host: HostAccount, env: ExecEnv): ExecReply {
    if !env.tokenVerifies then TokenInvalid
    else if env.readFault then Internal
    else if !Routable(r, host, env.reservation) then NoHost
    else if env.writeFault then RefusedSpend
    else match SpendOutcomeOf(t, sid, env.epoch)
      case AlreadySpent => DoubleSpend
      case Refused => RefusedSpend
      case Spent =>
        match env.delivery
        case HostAnswers => Answer(host)
        case HostFails => Upstream
        case NotEncodable => Internal
  }

  function AfterExec(r: Tables, t: Tables, sid: SpendId, host: HostAccount, env: ExecEnv): Tables {
    if Spends(r, t, sid, host, env) then SpendTxn(t, sid, host, env.epoch) else t
  }

  /**
   * What a reply tells about the spend.  Every reply but one says whether this call burned the
   * token; a 500 is given both before the spend and after it.
   */
  lemma ReplyTellsSpend(r: Tables, t: Tables, sid: SpendId, host: HostAccount, env: ExecEnv)
    ensures var reply, t' := ReplyOf(r, t, sid, host, env), AfterExec(r, t, sid, host, env);
      var burned := sid !in t.spent && sid in t'.spent;
      && (burned <==> reply.Answer? || reply.Upstream? || (reply.Internal? && !env.readFault))
      && (burned ==> sid in t'.spendHost && t'.spendHost[sid] == host)
      && (!burned ==> t' == t)
      && (reply.Answer? ==> reply.host == host)
      && (reply.DoubleSpend? ==> sid in t.spent)
      && (reply.RefusedSpend? ==> env.writeFault || (sid !in t.spent && !TripwireClear(t, env.epoch)))
  {
    if Spends(r, t, sid, host, env) {
      assert AfterExec(r, t, sid, host, env).spent == t.spent[sid := env.epoch];
    }
  }

  /** In plain terms: nowhere to send the job. */
  predicate NowhereToSend(r: Tables, host: HostAccount, reservation: Reservation) {
    || host !in r.hosts
    || !r.hosts[host].active
    || reservation == AtCapacity
    || (reservation == NoSocket && r.hosts[host].ingressAddr == "https://tunnel.invalid")
  }

  /** In plain terms: one more redeem would pass the issued count. */
  predicate Trips(t: Tables, e: Epoch) {
    SatAdd(CounterOf(t, e).redeemed, 1) > CounterOf(t, e).issued
  }

  /** Exactly which call gets which reply, and exactly what it writes. */
  lemma ReplyExactly(r: Tables, t: Tables, sid: SpendId, host: HostAccount, env: ExecEnv)
    ensures var reply, t' := ReplyOf(r, t, sid, host, env), AfterExec(r, t, sid, host, env);
      var atSpend := env.tokenVerifies && !env.readFault && !NowhereToSend(r, host, env.reservation);
      var burns := atSpend && !env.writeFault && sid !in t.spent && !Trips(t, env.epoch);
      var was := CounterOf(t, env.epoch);
      && (reply.TokenInvalid? <==> !env.tokenVerifies)
      && (reply.NoHost? <==> env.tokenVerifies && !env.readFault && NowhereToSend(r, host, env.reservation))
      && (reply.DoubleSpend? <==> atSpend && !env.writeFault && sid in t.spent)
      && (reply.RefusedSpend? <==> atSpend && (env.writeFault || (sid !in t.spent && Trips(t, env.epoch))))
      && (reply.Internal? <==> (env.tokenVerifies && env.readFault) || (burns && env.delivery == NotEncodable))
      && (reply.Upstream? <==> burns && env.delivery == HostFails)
      && (reply.Answer? <==> burns && env.delivery == HostAnswers)
      && (reply.Answer? ==> reply.host == host)
      && t' == (if !burns then t
                else t.(spent := t.spent[sid := env.epoch], spendHost := t.spendHost[sid := host],
                        counters := t.counters[env.epoch :=
                          CounterRow(was.issued, SatAdd(was.redeemed, 1), was.trialGranted)]))
  {}

  class Broker {
    const store: Store

    constructor (s: Store)
      ensures store == s
    {
      store := s;
    }

    /** The checks before the spend: `None` means that a route is in hand. */
    method Resolve(host: HostAccount, env: ExecEnv) returns (early: Option<ExecReply>)
      ensures early.None? <==> ReachesSpend(store.db, host, env)
      ensures early.None? <==>
                env.tokenVerifies && !env.readFault && !NowhereToSend(store.db, host, env.reservation)
      ensures early.Some? ==> forall t, sid :: ReplyOf(store.db, t, sid, host, env) == early.value
    {
      if !env.tokenVerifies { return Some(TokenInvalid); }
      if env.readFault { return Some(Internal); }
      if host !in store.db.hosts || !store.db.hosts[host].active { return Some(NoHost); }
      var addr := store.db.hosts[host].ingressAddr;
      match env.reservation {
        case Reserved =>
        case AtCapacity => return Some(NoHost);
        case NoSocket => if addr == TUNNEL_SENTINEL_ADDR { return Some(NoHost); }
      }
      return None;
    }

    /** Two transactions on the store, with anything committed by others in between. */
    method Exec(cfg: Config, sid: SpendId, host: HostAccount, between: seq<Txn>, env: ExecEnv)
      returns (reply: ExecReply)
      requires store.Valid()
      modifies store
      ensures store.Valid()
      ensures var r, t := old(store.db), ApplyAll(cfg, old(store.db), between);
        && reply == ReplyOf(r, t, sid, host, env)
        && store.db == AfterExec(r, t, sid, host, env)
        // a call that finds nowhere to send the job leaves the store to the others
        && (reply.NoHost? <==> env.tokenVerifies && !env.readFault && NowhereToSend(r, host, env.reservation))
        && (reply.NoHost? ==> store.db == t)
    {
      ReplyExactly(store.db, ApplyAll(cfg, store.db, between), sid, host, env);
      var early := Resolve(host, env);
      store.Meanwhile(cfg, between);
      if early.Some? { return early.value; }
      var outcome := store.Spend(sid, host, env.epoch, env.writeFault);
      match outcome {
        case AlreadySpent => return DoubleSpend;
        case Refused => return RefusedSpend;
        case Spent =>
          match env.delivery {
            case HostAnswers => return Answer(host);
            case HostFails => return Upstream;
            case NotEncodable => return Internal;
          }
      }
    }
  }
}
