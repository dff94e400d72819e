/**
 * The host registry: time-gated admission, replay-proof heartbeat counters and stale eviction.
 * Table writes are given as functions on the host table, the class carries them out in place, and
 * the run lemmas follow a registry through any sequence of registrations, heartbeats and sweeps.
 */
module Registry {
  import opened Prelude
  import opened Bytes

  /** A 32-byte host account. */
  type Key = k: seq<byte> | |k| == 32 witness seq(32, _ => 0)

  datatype HostRow = HostRow(
    hpkePk: seq<byte>,
    ingressAddr: string,
    models: seq<seq<byte>>,
    active: bool,
    hbCounter: nat,
    lastHb: nat,
    loadBucket: byte,
    admitProgress: nat)

  type Hosts = map<Key, HostRow>

  /** `interval` is a u64 number of seconds, `admissionM` a u32 number of heartbeats. */
  datatype Policy = Policy(interval: nat, admissionM: nat)

  ghost predicate Fits(cfg: Policy) { cfg.interval <= U64_MAX && cfg.admissionM <= U32_MAX }

  datatype Descriptor = Descriptor(hpkePk: seq<byte>, ingressAddr: string, models: seq<seq<byte>>)

  // ---- register ----

  datatype RegisterOutcome = Registered | Updated | BadAddress | BadSignature | BadPow

  function RegisterTxn(m: Hosts, k: Key, d: Descriptor, now: nat): Hosts {
    if k in m then
      m[k := m[k].(hpkePk := d.hpkePk, ingressAddr := d.ingressAddr, models := d.models)]
    else m[k := HostRow(d.hpkePk, d.ingressAddr, d.models, false, 0, now, 0, 0)]
  }

  // ---- heartbeat ----

  datatype HeartbeatOutcome = Accepted(active: bool) | Replay | UnknownHost | HeartbeatBadSignature

  predicate Fresh(m: Hosts, k: Key, counter: nat) { k in m && counter > m[k].hbCounter }

  function Beat(cfg: Policy, row: HostRow, counter: nat, load: byte, now: nat): HostRow {
    var seen := row.(hbCounter := counter, loadBucket := load, lastHb := now);
    if SatSub(now, row.lastHb) < cfg.interval then seen
    else
      var p := Min(row.admitProgress + 1, U32_MAX);
      seen.(admitProgress := p, active := row.active || p >= cfg.admissionM)
  }

  function HeartbeatTxn(cfg: Policy, m: Hosts, k: Key, counter: nat, load: byte, now: nat): Hosts {
    if Fresh(m, k, counter) then m[k := Beat(cfg, m[k], counter, load, now)] else m
  }

  // ---- eviction ----

  function Threshold(cfg: Policy): nat { Min(3 * cfg.interval, U64_MAX) }

  predicate Stale(cfg: Policy, now: nat, row: HostRow) { SatSub(now, row.lastHb) > Threshold(cfg) }

  predicate Demotable(cfg: Policy, now: nat, row: HostRow) {
    Stale(cfg, now, row) && (row.active || row.admitProgress > 0)
  }

  function Demoted(row: HostRow): HostRow { row.(active := false, admitProgress := 0) }

  ghost function DemotedKeys(cfg: Policy, now: nat, m: Hosts): set<Key> {
    set k | k in m && Demotable(cfg, now, m[k])
  }

  ghost function DemoteAll(m: Hosts, ks: set<Key>): Hosts {
    map k | k in m :: if k in ks then Demoted(m[k]) else m[k]
  }

  ghost function EvictTxn(cfg: Policy, now: nat, m: Hosts): Hosts {
    DemoteAll(m, DemotedKeys(cfg, now, m))
  }

  /** Sweeping again at the same moment finds nothing and changes nothing. */
  lemma EvictTwice(cfg: Policy, now: nat, m: Hosts)
    ensures DemotedKeys(cfg, now, EvictTxn(cfg, now, m)) == {}
    ensures EvictTxn(cfg, now, EvictTxn(cfg, now, m)) == EvictTxn(cfg, now, m)
  {
    var once := EvictTxn(cfg, now, m);
    forall k | k in once ensures !Demotable(cfg, now, once[k]) {
      assert once[k] == m[k] || once[k] == Demoted(m[k]);
    }
  }

  /** A saturated threshold decides the same as the exact one, on 64-bit clocks. */
  lemma ThresholdExact(cfg: Policy, now: nat, row: HostRow)
    requires now <= U64_MAX
    ensures Stale(cfg, now, row) <==> now - row.lastHb > 3 * cfg.interval
  {}

  ghost function KeysOf(rows: seq<(Key, HostRow)>): set<Key> {
    if rows == [] then {} else KeysOf(rows[..|rows| - 1]) + {rows[|rows| - 1].0}
  }

  ghost predicate AllDemoted(m: Hosts, rows: seq<(Key, HostRow)>) {
    forall i :: 0 <= i < |rows| ==> rows[i].0 in m && rows[i].1 == Demoted(m[rows[i].0])
  }

  lemma KeysOfPush(rows: seq<(Key, HostRow)>, k: Key, row: HostRow)
    ensures KeysOf(rows + [(k, row)]) == KeysOf(rows) + {k}
  {
    assert (rows + [(k, row)])[..|rows|] == rows;
  }

  lemma KeysOfNext(rows: seq<(Key, HostRow)>, i: nat)
    requires i < |rows|
    ensures KeysOf(rows[..i + 1]) == KeysOf(rows[..i]) + {rows[i].0}
  {
    assert rows[..i + 1][..i] == rows[..i];
  }

  /** Outside `todo`, exactly the demotable rows have been collected, once each. */
  ghost predicate Swept(cfg: Policy, now: nat, m: Hosts, todo: set<Key>, rows: seq<(Key, HostRow)>) {
    && todo <= m.Keys
    && KeysOf(rows) == DemotedKeys(cfg, now, m) - todo
    && |KeysOf(rows)| == |rows|
    && AllDemoted(m, rows)
  }

  lemma SweepTake(cfg: Policy, now: nat, m: Hosts, todo: set<Key>, rows: seq<(Key, HostRow)>, k: Key)
    requires Swept(cfg, now, m, todo, rows) && k in todo && Demotable(cfg, now, m[k])
    ensures Swept(cfg, now, m, todo - {k}, rows + [(k, Demoted(m[k]))])
  {
    KeysOfPush(rows, k, Demoted(m[k]));
    assert k !in KeysOf(rows);
  }

  lemma SweepSkip(cfg: Policy, now: nat, m: Hosts, todo: set<Key>, rows: seq<(Key, HostRow)>, k: Key)
    requires Swept(cfg, now, m, todo, rows) && k in todo && !Demotable(cfg, now, m[k])
    ensures Swept(cfg, now, m, todo - {k}, rows)
  {}

  lemma EvictedRows(cfg: Policy, now: nat, m: Hosts)
    ensures var m' := EvictTxn(cfg, now, m);
      && m'.Keys == m.Keys
      && (now <= U64_MAX ==> forall k :: k in m' ==>
            m'[k] == if now - m[k].lastHb > 3 * cfg.interval then m[k].(active := false, admitProgress := 0) else m[k])
      && DemotedKeys(cfg, now, m) == set k | k in m' && m'[k] != m[k]
  {
    var m' := EvictTxn(cfg, now, m);
    forall k | k in m ensures m'[k] != m[k] <==> k in DemotedKeys(cfg, now, m) {
      assert m'[k] == if Demotable(cfg, now, m[k]) then Demoted(m[k]) else m[k];
    }
    if now <= U64_MAX {
      forall k | k in m ensures Stale(cfg, now, m[k]) <==> now - m[k].lastHb > 3 * cfg.interval {
        ThresholdExact(cfg, now, m[k]);
      }
    }
  }

  lemma DemoteNone(m: Hosts)
    ensures DemoteAll(m, {}) == m
  {}

  lemma DemoteOneMore(m: Hosts, ks: set<Key>, k: Key)
    requires k in m
    ensures DemoteAll(m, ks + {k}) == DemoteAll(m, ks)[k := Demoted(m[k])]
  {}

  // ---- the class ----

  class HostRegistry {
    var hosts: Hosts

    constructor ()
      ensures hosts == map[]
    {
      hosts := map[];
    }

    method Register(k: Key, d: Descriptor, now: nat,
                    wellFormed: bool, signed: bool, powOk: bool, addrOk: bool)
      returns (outcome: RegisterOutcome)
      modifies this
      ensures outcome.Registered? <==> wellFormed && signed && powOk && addrOk && k !in old(hosts)
      ensures outcome.Updated? <==> wellFormed && signed && powOk && addrOk && k in old(hosts)
      ensures outcome.BadSignature? <==> wellFormed && !signed
      ensures outcome.BadPow? <==> wellFormed && signed && !powOk
      ensures outcome.BadAddress? <==> !wellFormed || (signed && powOk && !addrOk)
      ensures hosts == if outcome.Registered? || outcome.Updated? then RegisterTxn(old(hosts), k, d, now)
                       else old(hosts)
      // in plain terms: a new row starts pending; a refresh keeps status, counter, last heartbeat, load and progress
      ensures outcome.Registered? ==>
        hosts == old(hosts)[k := HostRow(d.hpkePk, d.ingressAddr, d.models, false, 0, now, 0, 0)]
      ensures outcome.Updated? ==>
        var was := old(hosts)[k];
        hosts == old(hosts)[k := HostRow(d.hpkePk, d.ingressAddr, d.models, was.active, was.hbCounter,
                                         was.lastHb, was.loadBucket, was.admitProgress)]
    {
      if !wellFormed { return BadAddress; }
      if !signed { return BadSignature; }
      if !powOk { return BadPow; }
      if !addrOk { return BadAddress; }
      var row: HostRow;
      if k in hosts {
        row := hosts[k];
        row := row.(hpkePk := d.hpkePk);
        row := row.(ingressAddr := d.ingressAddr);
        row := row.(models := d.models);
        outcome := Updated;
      } else {
        row := HostRow(d.hpkePk, d.ingressAddr, d.models, false, 0, now, 0, 0);
        outcome := Registered;
      }
      hosts := hosts[k := row];
    }

    method Heartbeat(cfg: Policy, k: Key, counter: nat, load: byte, now: nat,
                     wellFormed: bool, signed: bool)
      returns (outcome: HeartbeatOutcome)
      modifies this
      ensures outcome.Accepted? <==> wellFormed && signed && Fresh(old(hosts), k, counter)
      ensures outcome.UnknownHost? <==> wellFormed && k !in old(hosts)
      ensures outcome.Replay? <==> wellFormed && signed && k in old(hosts) && counter <= old(hosts)[k].hbCounter
      ensures hosts == if outcome.Accepted? then HeartbeatTxn(cfg, old(hosts), k, counter, load, now)
                       else old(hosts)
      ensures outcome.Accepted? ==> outcome.active == hosts[k].active
      // in plain terms: any newer counter is accepted, and counts if an interval has passed
      ensures outcome.Accepted? <==> wellFormed && signed && k in old(hosts) && counter > old(hosts)[k].hbCounter
      ensures outcome.Accepted? ==>
        var was := old(hosts)[k];
        var counts := cfg.interval == 0 || now - was.lastHb >= cfg.interval;
        var progress := if counts then Min(was.admitProgress + 1, U32_MAX) else was.admitProgress;
        hosts == old(hosts)[k := HostRow(was.hpkePk, was.ingressAddr, was.models,
                                         was.active || (counts && progress >= cfg.admissionM),
                                         counter, now, load, progress)]
    {
      if !wellFormed { return HeartbeatBadSignature; }
      if k !in hosts { return UnknownHost; }
      if !signed { return HeartbeatBadSignature; }
      var row := hosts[k];
      if counter <= row.hbCounter { return Replay; }
      var elapsed := SatSub(now, row.lastHb);
      row := row.(hbCounter := counter);
      row := row.(loadBucket := load);
      if elapsed >= cfg.interval {
        row := row.(admitProgress := Min(row.admitProgress + 1, U32_MAX));
        if row.admitProgress >= cfg.admissionM { row := row.(active := true); }
      }
      row := row.(lastHb := now);
      hosts := hosts[k := row];
      return Accepted(row.active);
    }

    /** Two passes: collect the stale rows in key order, then write them back demoted. */
    method EvictStale(cfg: Policy, now: nat) returns (count: nat)
      modifies this
      ensures hosts == EvictTxn(cfg, now, old(hosts))
      ensures count == |DemotedKeys(cfg, now, old(hosts))|
      // in plain terms: after three silent intervals a row is pending with no progress; all else stays
      ensures hosts.Keys == old(hosts).Keys
      ensures now <= U64_MAX ==> forall k :: k in hosts ==>
        hosts[k] == if now - old(hosts)[k].lastHb > 3 * cfg.interval
                    then old(hosts)[k].(active := false, admitProgress := 0) else old(hosts)[k]
      ensures count == |set k | k in hosts && hosts[k] != old(hosts)[k]|
    {
      var stale := CollectStale(cfg, now);
      DemoteNone(hosts);
      var i := 0;
      while i < |stale|
        invariant 0 <= i <= |stale|
        invariant hosts == DemoteAll(old(hosts), KeysOf(stale[..i]))
      {
        KeysOfNext(stale, i);
        DemoteOneMore(old(hosts), KeysOf(stale[..i]), stale[i].0);
        hosts := hosts[stale[i].0 := stale[i].1];
        i := i + 1;
      }
      assert stale[..i] == stale;
      count := |stale|;
      EvictedRows(cfg, now, old(hosts));
    }

    method CollectStale(cfg: Policy, now: nat) returns (stale: seq<(Key, HostRow)>)
      ensures KeysOf(stale) == DemotedKeys(cfg, now, hosts) && |KeysOf(stale)| == |stale|
      ensures AllDemoted(hosts, stale)
    {
      var threshold := Min(3 * cfg.interval, U64_MAX);
      stale := [];
      var todo := hosts.Keys;
      while todo != {}
        invariant Swept(cfg, now, hosts, todo, stale)
        decreases |todo|
      {
        FirstExists(todo);
        var k :| k in todo && IsFirst(todo, k);
        var row := hosts[k];
        if SatSub(now, row.lastHb) > threshold && (row.active || row.admitProgress > 0) {
          row := row.(active := false);
          row := row.(admitProgress := 0);
          SweepTake(cfg, now, hosts, todo, stale, k);
          stale := stale + [(k, row)];
        } else {
          SweepSkip(cfg, now, hosts, todo, stale, k);
        }
        todo := todo - {k};
      }
    }
  }

  // ---- runs ----

  datatype Event =
    | RegisterHost(key: Key, descriptor: Descriptor)
    | HeartbeatFrom(key: Key, counter: nat, load: byte)
    | Sweep

  datatype Timed = At(now: nat, event: Event)

  /**
   * The table together with what is remembered of its past: when each host last started from
   * zero, every counter accepted from it, what it last said of itself, and the latest clock reading.
   */
  datatype History = History(
    hosts: Hosts,
    anchor: map<Key, nat>,
    accepted: map<Key, seq<nat>>,
    described: map<Key, Descriptor>,
    load: map<Key, byte>,
    clock: nat)

  const START: History := History(map[], map[], map[], map[], map[], 0)

  function AcceptedFrom(h: History, k: Key): seq<nat> { if k in h.accepted then h.accepted[k] else [] }

  ghost function Step(cfg: Policy, h: History, t: Timed): History {
    match t.event
    case RegisterHost(k, d) =>
      h.(hosts := RegisterTxn(h.hosts, k, d, t.now),
         anchor := if k in h.hosts then h.anchor else h.anchor[k := t.now],
         described := h.described[k := d],
         clock := t.now)
    case HeartbeatFrom(k, c, load) =>
      h.(hosts := HeartbeatTxn(cfg, h.hosts, k, c, load, t.now),
         accepted := if Fresh(h.hosts, k, c) then h.accepted[k := AcceptedFrom(h, k) + [c]] else h.accepted,
         load := if Fresh(h.hosts, k, c) then h.load[k := load] else h.load,
         clock := t.now)
    case Sweep =>
      var gone := DemotedKeys(cfg, t.now, h.hosts);
      h.(hosts := EvictTxn(cfg, t.now, h.hosts),
         anchor := map k | k in h.hosts :: if k in gone then h.hosts[k].lastHb else Get(h.anchor, k),
         clock := t.now)
  }

  ghost function Play(cfg: Policy, run: seq<Timed>): History {
    if run == [] then START else Step(cfg, Play(cfg, run[..|run| - 1]), run[|run| - 1])
  }

  /** The clock never runs backwards. */
  predicate Ordered(run: seq<Timed>) {
    forall i :: 0 < i < |run| ==> run[i - 1].now <= run[i].now
  }

  // ---- a host is ACTIVE exactly when it has made enough progress ----

  ghost predicate ActiveIffProgress(cfg: Policy, h: History) {
    forall k :: k in h.hosts ==> (h.hosts[k].active <==> h.hosts[k].admitProgress >= cfg.admissionM)
  }

  lemma {:induction false} ActiveIffProgressAlways(cfg: Policy, run: seq<Timed>)
    requires Fits(cfg) && cfg.admissionM >= 1
    ensures ActiveIffProgress(cfg, Play(cfg, run))
    decreases |run|
  {
    if run != [] {
      ActiveIffProgressAlways(cfg, run[..|run| - 1]);
    }
  }

  lemma PlaySnoc(cfg: Policy, run: seq<Timed>, t: Timed)
    ensures Play(cfg, run + [t]) == Step(cfg, Play(cfg, run), t)
  {
    assert (run + [t])[..|run|] == run;
  }

  /**
   * Over all runs, the status says what the progress says exactly if M is at least one.  With M = 0 the
   * registration of any host under any descriptor is a counterexample.
   */
  lemma AdmissionNeedsM(cfg: Policy, now: nat, k: Key, d: Descriptor)
    requires Fits(cfg)
    ensures (forall run :: ActiveIffProgress(cfg, Play(cfg, run))) <==> cfg.admissionM >= 1
    ensures cfg.admissionM == 0 ==> !ActiveIffProgress(cfg, Play(cfg, [At(now, RegisterHost(k, d))]))
  {
    if cfg.admissionM >= 1 {
      forall run ensures ActiveIffProgress(cfg, Play(cfg, run)) {
        ActiveIffProgressAlways(cfg, run);
      }
    } else {
      var t := At(now, RegisterHost(k, d));
      PlaySnoc(cfg, [], t);
      assert [] + [t] == [t];
      var h := Play(cfg, [t]);
      assert k in h.hosts && !h.hosts[k].active;
      assert !ActiveIffProgress(cfg, h);
    }
  }

  // ---- admission takes time ----

  function Waited(intervals: nat, interval: nat): nat { intervals * interval }

  lemma WaitedOneMore(n: nat, interval: nat)
    ensures Waited(n + 1, interval) == Waited(n, interval) + interval
    ensures Waited(0, interval) == 0
  {}

  lemma WaitedMono(m: nat, n: nat, interval: nat)
    requires m <= n
    ensures Waited(m, interval) <= Waited(n, interval)
  {}

  ghost predicate RowPaced(cfg: Policy, row: HostRow, anchor: nat, clock: nat) {
    anchor + Waited(row.admitProgress, cfg.interval) <= row.lastHb <= clock
  }

  ghost predicate Paced(cfg: Policy, h: History) {
    && h.anchor.Keys == h.hosts.Keys
    && forall k :: k in h.hosts ==> RowPaced(cfg, h.hosts[k], h.anchor[k], h.clock)
  }

  lemma BeatKeepsPace(cfg: Policy, row: HostRow, anchor: nat, clock: nat, counter: nat, load: byte, now: nat)
    requires RowPaced(cfg, row, anchor, clock) && clock <= now
    ensures RowPaced(cfg, Beat(cfg, row, counter, load, now), anchor, now)
  {
    WaitedOneMore(row.admitProgress, cfg.interval);
    WaitedMono(Min(row.admitProgress + 1, U32_MAX), row.admitProgress + 1, cfg.interval);
  }

  lemma StepKeepsPace(cfg: Policy, h: History, t: Timed)
    requires Paced(cfg, h) && h.clock <= t.now
    ensures Paced(cfg, Step(cfg, h, t))
  {
    match t.event
    case RegisterHost(k, d) =>
      WaitedOneMore(0, cfg.interval);
    case HeartbeatFrom(k, c, load) =>
      if k in h.hosts {
        BeatKeepsPace(cfg, h.hosts[k], h.anchor[k], h.clock, c, load, t.now);
      }
    case Sweep =>
      WaitedOneMore(0, cfg.interval);
  }

  /**
   * Slow admission: a host's latest heartbeat is at least one interval per unit of progress later
   * than the moment it last started from zero (its registration, or the last heartbeat before its
   * latest demotion).
   */
  lemma {:induction false} AdmissionTakesTime(cfg: Policy, run: seq<Timed>)
    requires Ordered(run)
    ensures Paced(cfg, Play(cfg, run))
    ensures run != [] ==> Play(cfg, run).clock == run[|run| - 1].now
    decreases |run|
  {
    if run != [] {
      var before := run[..|run| - 1];
      AdmissionTakesTime(cfg, before);
      if before != [] {
        assert run[|run| - 2].now <= run[|run| - 1].now;
      }
      StepKeepsPace(cfg, Play(cfg, before), run[|run| - 1]);
    }
  }

  /** An ACTIVE host has been heard over at least M intervals since it last started from zero. */
  lemma ActiveHostsWaited(cfg: Policy, run: seq<Timed>, k: Key)
    requires Fits(cfg) && cfg.admissionM >= 1 && Ordered(run)
    requires k in Play(cfg, run).hosts && Play(cfg, run).hosts[k].active
    ensures k in Play(cfg, run).anchor
    ensures Play(cfg, run).hosts[k].lastHb >= Play(cfg, run).anchor[k] + Waited(cfg.admissionM, cfg.interval)
  {
    ActiveIffProgressAlways(cfg, run);
    AdmissionTakesTime(cfg, run);
    WaitedMono(cfg.admissionM, Play(cfg, run).hosts[k].admitProgress, cfg.interval);
  }

  /** Registered, then heard at an earlier reading of the clock: the order of time is needed for the pace. */
  lemma ClockStepBackBreaksPace(cfg: Policy, k: Key, d: Descriptor, before: nat, after: nat)
    requires after < before
    ensures var h := Play(cfg, [At(before, RegisterHost(k, d)), At(after, HeartbeatFrom(k, 1, 0))]);
      && k in h.hosts && k in h.anchor
      && h.hosts[k].lastHb < h.anchor[k] + Waited(h.hosts[k].admitProgress, cfg.interval)
  {
    var t0, t1 := At(before, RegisterHost(k, d)), At(after, HeartbeatFrom(k, 1, 0));
    PlaySnoc(cfg, [], t0);
    PlaySnoc(cfg, [t0], t1);
    assert [] + [t0] == [t0] && [t0] + [t1] == [t0, t1];
    var h := Play(cfg, [t0, t1]);
    assert h.hosts[k].lastHb == after && h.anchor[k] == before;
  }

  // ---- progress, counted from the clock alone ----

  /**
   * What is known of a host from the times and counters of its events: the latest reading of the clock
   * that counts for it, the latest counter accepted, and how many accepted heartbeats came at least one
   * interval after the reading before them since it was last silent for three intervals.
   */
  datatype Timing = Unheard | Timing(reading: nat, counter: nat, timely: nat, admitted: bool)

  function Tick(cfg: Policy, s: Timing, t: Timed, k: Key): Timing {
    match t.event
    case RegisterHost(j, _) => if j == k && s.Unheard? then Timing(t.now, 0, 0, false) else s
    case HeartbeatFrom(j, c, _) =>
      if j != k || s.Unheard? || c <= s.counter then s
      else if t.now < s.reading + cfg.interval then s.(reading := t.now, counter := c)
      else
        s.(reading := t.now, counter := c, timely := s.timely + 1,
           admitted := s.admitted || s.timely + 1 >= cfg.admissionM)
    case Sweep =>
      if s.Timing? && t.now > s.reading + 3 * cfg.interval then s.(timely := 0, admitted := false) else s
  }

  function TimingOf(cfg: Policy, run: seq<Timed>, k: Key): Timing
    decreases |run|
  {
    if run == [] then Unheard else Tick(cfg, TimingOf(cfg, run[..|run| - 1], k), run[|run| - 1], k)
  }

  /** The row of `k` is what the timing says. */
  ghost predicate RowTimed(h: History, k: Key, s: Timing) {
    && (k in h.hosts <==> s.Timing?)
    && (k in h.hosts ==>
          && h.hosts[k].lastHb == s.reading <= h.clock
          && h.hosts[k].hbCounter == s.counter
          && h.hosts[k].admitProgress == Min(s.timely, U32_MAX)
          && h.hosts[k].active == s.admitted)
  }

  lemma TickStep(cfg: Policy, h: History, t: Timed, k: Key, s: Timing)
    requires Fits(cfg) && RowTimed(h, k, s) && h.clock <= t.now <= U64_MAX
    ensures RowTimed(Step(cfg, h, t), k, Tick(cfg, s, t, k))
  {
    match t.event
    case RegisterHost(_, _) =>
    case HeartbeatFrom(j, c, load) =>
      if j == k && Fresh(h.hosts, k, c) { TimelyBeat(cfg, h.hosts[k], c, load, t.now, s); }
    case Sweep =>
      EvictedRows(cfg, t.now, h.hosts);
  }

  lemma TimelyBeat(cfg: Policy, row: HostRow, c: nat, load: byte, now: nat, s: Timing)
    requires Fits(cfg) && s.Timing? && row.lastHb == s.reading <= now
    requires row.admitProgress == Min(s.timely, U32_MAX) && row.active == s.admitted
    ensures var r, timely := Beat(cfg, row, c, load, now), now >= s.reading + cfg.interval;
      && r.lastHb == now && r.hbCounter == c
      && r.admitProgress == Min(if timely then s.timely + 1 else s.timely, U32_MAX)
      && r.active == (s.admitted || (timely && s.timely + 1 >= cfg.admissionM))
  {}

  /** The clock fits in 64 bits. */
  predicate ClockFits(run: seq<Timed>) { forall i :: 0 <= i < |run| ==> run[i].now <= U64_MAX }

  /**
   * Progress is the number of timely heartbeats, and ACTIVE is what it says: both are exactly what the
   * times and counters of the events determine.
   */
  lemma {:induction false} ProgressCountsTimelyBeats(cfg: Policy, run: seq<Timed>, k: Key)
    requires Fits(cfg) && Ordered(run) && ClockFits(run)
    ensures RowTimed(Play(cfg, run), k, TimingOf(cfg, run, k))
    ensures run != [] ==> Play(cfg, run).clock == run[|run| - 1].now
    decreases |run|
  {
    if run != [] {
      var pre := run[..|run| - 1];
      assert forall i :: 0 <= i < |pre| ==> pre[i] == run[i];
      ProgressCountsTimelyBeats(cfg, pre, k);
      if pre != [] { assert run[|run| - 2].now <= run[|run| - 1].now; }
      assert run[|run| - 1].now <= U64_MAX;
      TickStep(cfg, Play(cfg, pre), run[|run| - 1], k, TimingOf(cfg, pre, k));
    }
  }

  // ---- the shortest way to ACTIVE ----

  /** How many timely heartbeats make a host ACTIVE. */
  function Needed(cfg: Policy): nat { if cfg.admissionM == 0 then 1 else cfg.admissionM }

  ghost predicate ActiveHasProgress(cfg: Policy, h: History) {
    forall k :: k in h.hosts && h.hosts[k].active ==> h.hosts[k].admitProgress >= Needed(cfg)
  }

  /** Whatever M is, a host becomes ACTIVE only by a timely heartbeat. */
  lemma {:induction false} ActiveHasProgressAlways(cfg: Policy, run: seq<Timed>)
    requires Fits(cfg)
    ensures ActiveHasProgress(cfg, Play(cfg, run))
    decreases |run|
  {
    if run != [] {
      ActiveHasProgressAlways(cfg, run[..|run| - 1]);
    }
  }

  /** Host `k` registers as `d` and is heard from then on; nobody sweeps. */
  ghost predicate OnlyHeard(run: seq<Timed>, k: Key, d: Descriptor) {
    && run != [] && run[0].event == RegisterHost(k, d)
    && forall i :: 0 < i < |run| ==> run[i].event.HeartbeatFrom? && run[i].event.key == k
  }

  /** The row of a host heard `n` times, one interval apart. */
  ghost predicate HeardTimes(cfg: Policy, m: Hosts, k: Key, n: nat) {
    && k in m && m[k].hbCounter == n && m[k].admitProgress == n
    && m[k].lastHb == Waited(n, cfg.interval)
    && (n >= Needed(cfg) ==> m[k].active)
  }

  lemma OnceMore(cfg: Policy, m: Hosts, k: Key, n: nat)
    requires n < U32_MAX && HeardTimes(cfg, m, k, n)
    ensures HeardTimes(cfg, HeartbeatTxn(cfg, m, k, n + 1, 0, Waited(n + 1, cfg.interval)), k, n + 1)
  {
    WaitedOneMore(n, cfg.interval);
  }

  lemma OnlyHeardMore(run: seq<Timed>, k: Key, d: Descriptor, t: Timed)
    requires Ordered(run) && OnlyHeard(run, k, d) && run[|run| - 1].now <= t.now
    requires t.event.HeartbeatFrom? && t.event.key == k
    ensures Ordered(run + [t]) && OnlyHeard(run + [t], k, d)
  {}

  /** A host that is registered and then heard `n` times, one interval apart. */
  lemma {:induction false} HeardOften(cfg: Policy, k: Key, d: Descriptor, n: nat) returns (run: seq<Timed>)
    requires n <= U32_MAX
    ensures Ordered(run) && OnlyHeard(run, k, d) && run[|run| - 1].now == Waited(n, cfg.interval)
    ensures HeardTimes(cfg, Play(cfg, run).hosts, k, n)
  {
    if n == 0 {
      var t := At(0, RegisterHost(k, d));
      run := [] + [t];
      PlaySnoc(cfg, [], t);
      WaitedOneMore(0, cfg.interval);
    } else {
      var pre := HeardOften(cfg, k, d, n - 1);
      var t := At(Waited(n, cfg.interval), HeartbeatFrom(k, n, 0));
      WaitedOneMore(n - 1, cfg.interval);
      PlaySnoc(cfg, pre, t);
      OnceMore(cfg, Play(cfg, pre).hosts, k, n - 1);
      OnlyHeardMore(pre, k, d, t);
      run := pre + [t];
    }
  }

  // ---- what a row shows ----

  /** The row of `k` shows its latest registration and the load of its latest accepted heartbeat. */
  ghost predicate UpToDate(h: History, k: Key) {
    && (k in h.hosts <==> k in h.described)
    && (k in h.load ==> k in h.hosts)
    && (k in h.hosts ==>
          && Descriptor(h.hosts[k].hpkePk, h.hosts[k].ingressAddr, h.hosts[k].models) == h.described[k]
          && h.hosts[k].loadBucket == if k in h.load then h.load[k] else 0)
  }

  lemma {:induction false} RowsUpToDate(cfg: Policy, run: seq<Timed>, k: Key)
    ensures UpToDate(Play(cfg, run), k)
    decreases |run|
  {
    if run != [] {
      RowsUpToDate(cfg, run[..|run| - 1], k);
    }
  }

  // ---- accepted counters ----

  ghost predicate Increasing(s: seq<nat>) { forall i, j :: 0 <= i < j < |s| ==> s[i] < s[j] }

  /** Every accepted counter of `k` is positive, in order, and at most the stored one. */
  ghost predicate CountersKept(h: History, k: Key) {
    && (k !in h.hosts ==> AcceptedFrom(h, k) == [])
    && Increasing([0] + AcceptedFrom(h, k))
    && (k in h.hosts ==> h.hosts[k].hbCounter == ([0] + AcceptedFrom(h, k))[|AcceptedFrom(h, k)|])
  }

  lemma StepKeepsCounters(cfg: Policy, h: History, t: Timed, k: Key)
    requires CountersKept(h, k)
    ensures CountersKept(Step(cfg, h, t), k)
    ensures AcceptedFrom(h, k) <= AcceptedFrom(Step(cfg, h, t), k)
  {
    var h' := Step(cfg, h, t);
    if t.event.HeartbeatFrom? && t.event.key == k && Fresh(h.hosts, k, t.event.counter) {
      var was, now := [0] + AcceptedFrom(h, k), [0] + AcceptedFrom(h', k);
      assert now == was + [t.event.counter];
      assert forall i :: 0 <= i < |was| ==> was[i] <= was[|was| - 1];
    } else {
      assert AcceptedFrom(h', k) == AcceptedFrom(h, k);
    }
  }

  /**
   * Replay protection over whole runs: through re-registration and eviction, and whatever the
   * clock does, the counters accepted from a host strictly increase and end at the stored one.
   */
  lemma {:induction false} AcceptedCountersIncrease(cfg: Policy, run: seq<Timed>, k: Key)
    ensures CountersKept(Play(cfg, run), k)
    ensures Increasing(AcceptedFrom(Play(cfg, run), k))
    decreases |run|
  {
    if run != [] {
      AcceptedCountersIncrease(cfg, run[..|run| - 1], k);
      StepKeepsCounters(cfg, Play(cfg, run[..|run| - 1]), run[|run| - 1], k);
    }
    var s := AcceptedFrom(Play(cfg, run), k);
    forall i, j | 0 <= i < j < |s| ensures s[i] < s[j] {
      assert ([0] + s)[i + 1] < ([0] + s)[j + 1];
    }
  }
}
