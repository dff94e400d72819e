/**
 * One host table, two views.  The registry and the snapshot see full rows under 32-byte keys; the
 * economy and `/v1/exec` see an opaque account with a status and an address.  `id` is the naming that
 * relates the two, and every registry write is a write of the second view.
 */
module HostView {
  import opened Prelude
  import opened Tables
  import opened Registry
  import opened Snapshot
  import opened Exec

  ghost predicate Naming(id: Key -> HostAccount) { forall j, k :: id(j) == id(k) ==> j == k }

  function EntryView(row: HostRow): HostEntry { HostEntry(row.active, row.ingressAddr) }

  /** The host table as the economy sees it. */
  ghost function View(id: Key -> HostAccount, m: Hosts): map<HostAccount, HostEntry>
    requires Naming(id)
  {
    map k | k in m :: id(k) := EntryView(m[k])
  }

  ghost predicate Agree(id: Key -> HostAccount, m: Hosts, t: Tables)
    requires Naming(id)
  {
    t.hosts == View(id, m)
  }

  lemma ViewAt(id: Key -> HostAccount, m: Hosts, k: Key)
    requires Naming(id)
    ensures id(k) in View(id, m) <==> k in m
    ensures k in m ==> View(id, m)[id(k)] == EntryView(m[k])
  {}

  lemma ViewUpdate(id: Key -> HostAccount, m: Hosts, k: Key, row: HostRow)
    requires Naming(id)
    ensures View(id, m[k := row]) == View(id, m)[id(k) := EntryView(row)]
  {
    var a, b := View(id, m[k := row]), View(id, m)[id(k) := EntryView(row)];
    forall h ensures h in a <==> h in b {
      if h in b && h != id(k) {
        var j :| j in m && id(j) == h;
        assert j in m[k := row];
      }
      if h == id(k) { assert k in m[k := row]; }
    }
    forall h | h in a ensures a[h] == b[h] {
      var j :| j in m[k := row] && id(j) == h;
      assert a[h] == EntryView(m[k := row][j]);
    }
  }

  // ---- every registry write is a host transaction ----

  /** The transactions are host writes, and carry the economy's tables from agreeing with `m` to `m'`. */
  ghost predicate Carries(id: Key -> HostAccount, cfg: Config, t: Tables, xs: seq<Txn>, m: Hosts, m': Hosts)
    requires Naming(id)
  {
    && (forall i :: 0 <= i < |xs| ==> xs[i].THost?)
    && (Agree(id, m, t) ==> Agree(id, m', ApplyAll(cfg, t, xs)))
    && ApplyAll(cfg, t, xs) == t.(hosts := ApplyAll(cfg, t, xs).hosts)
  }

  lemma {:induction false} ApplySnoc(cfg: Config, t: Tables, xs: seq<Txn>, x: Txn)
    ensures ApplyAll(cfg, t, xs + [x]) == Apply(cfg, ApplyAll(cfg, t, xs), x)
    decreases |xs|
  {
    if xs == [] {
      assert xs + [x] == [x] && [x][1..] == [];
    } else {
      assert (xs + [x])[1..] == xs[1..] + [x];
      ApplySnoc(cfg, Apply(cfg, t, xs[0]), xs[1..], x);
    }
  }

  lemma CarriesOneMore(id: Key -> HostAccount, cfg: Config, t: Tables, xs: seq<Txn>, m: Hosts, m': Hosts,
                       k: Key, row: HostRow)
    requires Naming(id) && Carries(id, cfg, t, xs, m, m')
    ensures Carries(id, cfg, t, xs + [THost(id(k), EntryView(row))], m, m'[k := row])
  {
    ApplySnoc(cfg, t, xs, THost(id(k), EntryView(row)));
    ViewUpdate(id, m', k, row);
  }

  lemma {:induction false} DemotionsCarry(id: Key -> HostAccount, cfg: Config, t: Tables, m: Hosts, ks: set<Key>)
    returns (xs: seq<Txn>)
    requires Naming(id) && ks <= m.Keys
    ensures Carries(id, cfg, t, xs, m, DemoteAll(m, ks)) && |xs| == |ks|
    decreases |ks|
  {
    if ks == {} {
      xs := [];
      DemoteNone(m);
    } else {
      var k :| k in ks;
      var rest := ks - {k};
      xs := DemotionsCarry(id, cfg, t, m, rest);
      DemoteOneMore(m, rest, k);
      assert rest + {k} == ks;
      CarriesOneMore(id, cfg, t, xs, m, DemoteAll(m, rest), k, Demoted(m[k]));
      xs := xs + [THost(id(k), EntryView(Demoted(m[k])))];
    }
  }

  /**
   * Every step of the registry reaches the economy as host writes: one for a registration or an accepted
   * heartbeat, one per demoted host for a sweep, none otherwise.
   */
  lemma RegistryStepsAreHostWrites(id: Key -> HostAccount, cfg: Config, t: Tables, p: Policy, h: History, ev: Timed)
    returns (xs: seq<Txn>)
    requires Naming(id)
    ensures Carries(id, cfg, t, xs, h.hosts, Step(p, h, ev).hosts)
    ensures |xs| == match ev.event
                    case RegisterHost(_, _) => 1
                    case HeartbeatFrom(k, c, _) => if Fresh(h.hosts, k, c) then 1 else 0
                    case Sweep => |DemotedKeys(p, ev.now, h.hosts)|
  {
    var m, m' := h.hosts, Step(p, h, ev).hosts;
    xs := [];
    assert Carries(id, cfg, t, xs, m, m);
    match ev.event
    case RegisterHost(k, d) =>
      assert m' == m[k := m'[k]];
      CarriesOneMore(id, cfg, t, xs, m, m, k, m'[k]);
      xs := xs + [THost(id(k), EntryView(m'[k]))];
    case HeartbeatFrom(k, c, load) =>
      if Fresh(m, k, c) {
        assert m' == m[k := m'[k]];
        CarriesOneMore(id, cfg, t, xs, m, m, k, m'[k]);
        xs := xs + [THost(id(k), EntryView(m'[k]))];
      }
    case Sweep =>
      xs := DemotionsCarry(id, cfg, t, m, DemotedKeys(p, ev.now, m));
  }

  // ---- from the snapshot to the spend ----

  /** What the broker resolves is exactly the ACTIVE rows, at their registered addresses. */
  lemma ResolvesActiveRows(id: Key -> HostAccount, m: Hosts, t: Tables, k: Key)
    requires Naming(id) && Agree(id, m, t)
    ensures ResolveActiveHost(t, id(k)) == if k in m && m[k].active then Some(m[k].ingressAddr) else None
  {
    ViewAt(id, m, k);
  }

  /** No sweep among the events `more` after `run` demotes `k`. */
  ghost predicate NotDemoted(p: Policy, run: seq<Timed>, more: seq<Timed>, k: Key) {
    forall i :: 0 <= i < |more| && more[i].event.Sweep? ==>
      k !in DemotedKeys(p, more[i].now, Play(p, run + more[..i]).hosts)
  }

  lemma {:induction false} StaysActive(p: Policy, run: seq<Timed>, more: seq<Timed>, k: Key)
    requires k in Play(p, run).hosts && Play(p, run).hosts[k].active && NotDemoted(p, run, more, k)
    ensures k in Play(p, run + more).hosts && Play(p, run + more).hosts[k].active
    decreases |more|
  {
    if more == [] {
      assert run + more == run;
    } else {
      var pre, last := more[..|more| - 1], more[|more| - 1];
      forall i | 0 <= i < |pre| && pre[i].event.Sweep?
        ensures k !in DemotedKeys(p, pre[i].now, Play(p, run + pre[..i]).hosts)
      {
        assert pre[..i] == more[..i] && pre[i] == more[i];
      }
      StaysActive(p, run, pre, k);
      PlaySnoc(p, run + pre, last);
      assert run + pre + [last] == run + more;
      assert more[..|more| - 1] == pre;
    }
  }

  /**
   * The snapshot keeps its word: a host that a client recovers from a published snapshot, and that no
   * sweep has demoted since, is resolved by the broker, at the address it registered last.
   */
  lemma ListedHostResolves(id: Key -> HostAccount, p: Policy, run: seq<Timed>, more: seq<Timed>, t: Tables, e: Entry)
    requires Naming(id) && e in Listing(Play(p, run).hosts)
    requires Agree(id, Play(p, run + more).hosts, t)
    requires forall k :: k in Play(p, run).hosts && k == e.account ==> NotDemoted(p, run, more, k)
    ensures var h := Play(p, run + more);
      exists k :: k in h.described && k == e.account && ResolveActiveHost(t, id(k)) == Some(h.described[k].ingressAddr)
  {
    var m := Play(p, run).hosts;
    ActiveAmongLists(m, m.Keys);
    var k: Key :| k in m && m[k].active && e == EntryOf(k, m[k]);
    StaysActive(p, run, more, k);
    RowsUpToDate(p, run + more, k);
    ResolvesActiveRows(id, Play(p, run + more).hosts, t, k);
  }
}
