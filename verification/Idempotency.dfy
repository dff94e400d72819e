/** The issue-request idempotency cache with reserve-on-lookup semantics. */
module Idempotency {
  type Signature = nat
  type BatchHash = nat
  /** `(account, request_id)`. */
  datatype RequestKey = RequestKey(account: nat, requestId: nat)
  type Response = seq<Signature>

  datatype Entry = Pending(hash: BatchHash) | Done(hash: BatchHash, resp: Response)
  datatype BeginOutcome = Reserved | Replay(resp: Response) | Conflict | InFlight

  type Entries = map<RequestKey, Entry>

  function BeginOutcomeOf(m: Entries, k: RequestKey, h: BatchHash): BeginOutcome {
    if k !in m then Reserved
    else if m[k].hash != h then Conflict
    else match m[k] case Pending(_) => InFlight case Done(_, r) => Replay(r)
  }

  function AfterBegin(m: Entries, k: RequestKey, h: BatchHash): Entries {
    if k !in m then m[k := Pending(h)] else m
  }

  /** A reservation is undone by a release and overwritten by a store, leaving no trace. */
  lemma ReservationLeavesNoTrace(m: Entries, k: RequestKey, h: BatchHash, done: Entry)
    requires k !in m
    ensures AfterBegin(m, k, h) - {k} == m
    ensures AfterBegin(m, k, h)[k := done] == m[k := done]
  {
    assert m[k := Pending(h)] - {k} == m;
  }

  /** The mutex-guarded map; each method body is one critical section. */
  class IssueIdempotencyCache {
    var entries: Entries

    constructor ()
      ensures entries == map[]
    {
      entries := map[];
    }

    method Begin(k: RequestKey, h: BatchHash) returns (outcome: BeginOutcome)
      modifies this
      ensures outcome == BeginOutcomeOf(old(entries), k, h)
      ensures entries == AfterBegin(old(entries), k, h)
      // in plain terms: four cases, of which only the first writes
      ensures outcome.Reserved? <==> k !in old(entries)
      ensures entries == if k in old(entries) then old(entries) else old(entries)[k := Pending(h)]
      ensures outcome.InFlight? <==> k in old(entries) && old(entries)[k] == Pending(h)
      ensures outcome.Conflict? <==> k in old(entries) && old(entries)[k].hash != h
      ensures outcome.Replay? ==> old(entries)[k] == Done(h, outcome.resp)
    {
      if k !in entries {
        entries := entries[k := Pending(h)];
        return Reserved;
      }
      match entries[k] {
        case Pending(g) =>
          if g == h { return InFlight; } else { return Conflict; }
        case Done(g, resp) =>
          if g == h { return Replay(resp); } else { return Conflict; }
      }
    }

    method Store(k: RequestKey, h: BatchHash, resp: Response)
      modifies this
      ensures entries == old(entries)[k := Done(h, resp)]
      ensures BeginOutcomeOf(entries, k, h) == Replay(resp)
    {
      entries := entries[k := Done(h, resp)];
    }

    method Release(k: RequestKey)
      modifies this
      ensures entries == old(entries) - {k}
      ensures forall h :: BeginOutcomeOf(entries, k, h) == Reserved
    {
      entries := entries - {k};
    }
  }
}
