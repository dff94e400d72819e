/**
 * The directory of live reverse-tunnel sockets.  Handlers run concurrently; drawing a
 * generation, inserting and removing are separate atomic steps.
 */
module TunnelDirectory {
  import opened Prelude

  type Account = nat
  type Generation = nat
  type HandlerId = nat

  const MAX_SOCKETS: nat := 4096

  type Sockets = map<Account, Generation>

  predicate HasRoom(m: Sockets, a: Account) { a in m || |m| < MAX_SOCKETS }

  function RemoveIfCurrent(m: Sockets, a: Account, g: Generation): Sockets {
    if a in m && m[a] == g then m - {a} else m
  }

  // ---- interleaved handlers ----

  datatype Stage = Authenticated | Numbered(gen: Generation) | Listed(gen: Generation) | Gone

  datatype Handler = Handler(account: Account, stage: Stage)

  datatype Directory = Directory(
    sockets: Sockets,
    next: Generation,
    handlers: map<HandlerId, Handler>,
    drawn: map<Generation, HandlerId>,          // auxiliary: who drew each generation
    inserted: map<Account, seq<Generation>>)    // auxiliary: what was inserted, in order

  datatype Event =
    | Connect(h: HandlerId, account: Account)    // handshake passed
    | Draw(h: HandlerId)
    | Insert(h: HandlerId)
    | Teardown(h: HandlerId)

  const EMPTY: Directory := Directory(map[], 0, map[], map[], map[])

  function Move(d: Directory, h: HandlerId, s: Stage): map<HandlerId, Handler>
    requires h in d.handlers
  {
    d.handlers[h := d.handlers[h].(stage := s)]
  }

  function InsertedFor(d: Directory, a: Account): seq<Generation> {
    if a in d.inserted then d.inserted[a] else []
  }

  predicate Enabled(d: Directory, ev: Event) {
    match ev
    case Connect(h, _) => h !in d.handlers
    case Draw(h) => h in d.handlers && d.handlers[h].stage.Authenticated?
    case Insert(h) => h in d.handlers && d.handlers[h].stage.Numbered?
    case Teardown(h) => h in d.handlers && d.handlers[h].stage.Listed?
  }

  function Step(d: Directory, ev: Event): Directory {
    if !Enabled(d, ev) then d
    else match ev
      case Connect(h, a) => d.(handlers := d.handlers[h := Handler(a, Authenticated)])
      case Draw(h) =>
        d.(next := d.next + 1, handlers := Move(d, h, Numbered(d.next)), drawn := d.drawn[d.next := h])
      case Insert(h) =>
        var a, g := d.handlers[h].account, d.handlers[h].stage.gen;
        if HasRoom(d.sockets, a) then
          d.(sockets := d.sockets[a := g], handlers := Move(d, h, Listed(g)),
             inserted := d.inserted[a := InsertedFor(d, a) + [g]])
        else d.(handlers := Move(d, h, Gone))
      case Teardown(h) =>
        var a, g := d.handlers[h].account, d.handlers[h].stage.gen;
        d.(sockets := RemoveIfCurrent(d.sockets, a, g), handlers := Move(d, h, Gone))
  }

  function Run(evs: seq<Event>): Directory
    decreases |evs|
  {
    if evs == [] then EMPTY else Step(Run(evs[..|evs| - 1]), evs[|evs| - 1])
  }

  function GenOf(s: Stage): Option<Generation> {
    match s case Numbered(g) => Some(g) case Listed(g) => Some(g) case _ => None
  }

  /** The socket listed for `a` belongs to a handler that inserted it and has not torn it down. */
  ghost predicate Backed(d: Directory, a: Account) {
    && a in d.sockets
    && d.sockets[a] in d.drawn
    && d.drawn[d.sockets[a]] in d.handlers
    && d.handlers[d.drawn[d.sockets[a]]] == Handler(a, Listed(d.sockets[a]))
  }

  ghost predicate DirectoryInv(d: Directory) {
    && |d.sockets| <= MAX_SOCKETS
    && (forall g :: g in d.drawn ==> g < d.next)
    && (forall h :: h in d.handlers && GenOf(d.handlers[h].stage).Some? ==>
          var g := GenOf(d.handlers[h].stage).value; g in d.drawn && d.drawn[g] == h)
    && (forall a :: a in d.sockets ==> Backed(d, a))
  }

  lemma InsertKeeps(d: Directory, h: HandlerId)
    requires DirectoryInv(d) && Enabled(d, Insert(h))
    ensures DirectoryInv(Step(d, Insert(h)))
  {
    var d' := Step(d, Insert(h));
    var a, g := d.handlers[h].account, d.handlers[h].stage.gen;
    if HasRoom(d.sockets, a) {
      if a in d.sockets {
        assert d'.sockets.Keys == d.sockets.Keys;
        assert |d'.sockets| == |d'.sockets.Keys| && |d.sockets| == |d.sockets.Keys|;
      } else {
        InsertCard(d.sockets, a, g);
      }
    }
    forall b | b in d'.sockets ensures Backed(d', b) {
      if b in d.sockets { assert Backed(d, b); }
    }
  }

  lemma TeardownKeeps(d: Directory, h: HandlerId)
    requires DirectoryInv(d) && Enabled(d, Teardown(h))
    ensures DirectoryInv(Step(d, Teardown(h)))
  {
    var d' := Step(d, Teardown(h));
    SubsetCard(d'.sockets.Keys, d.sockets.Keys);
    assert |d'.sockets| == |d'.sockets.Keys| && |d.sockets| == |d.sockets.Keys|;
    forall b | b in d'.sockets ensures Backed(d', b) {
      assert Backed(d, b);
    }
  }

  lemma DirectoryStep(d: Directory, ev: Event)
    requires DirectoryInv(d)
    ensures DirectoryInv(Step(d, ev))
  {
    if Enabled(d, ev) {
      match ev
      case Insert(h) => InsertKeeps(d, h);
      case Teardown(h) => TeardownKeeps(d, h);
      case Connect(h, a) =>
        forall b | b in d.sockets ensures Backed(Step(d, ev), b) { assert Backed(d, b); }
      case Draw(h) =>
        forall b | b in d.sockets ensures Backed(Step(d, ev), b) { assert Backed(d, b); }
    }
  }

  /** In every interleaving the directory is bounded, and lists only live, correctly-owned sockets. */
  lemma {:induction false} DirectoryAlways(evs: seq<Event>)
    ensures DirectoryInv(Run(evs))
    decreases |evs|
  {
    if evs != [] {
      DirectoryAlways(evs[..|evs| - 1]);
      DirectoryStep(Run(evs[..|evs| - 1]), evs[|evs| - 1]);
    }
  }

  /** Two handlers never share a generation, so `remove_if_current` can tell sockets apart. */
  lemma GenerationsUnique(evs: seq<Event>, h1: HandlerId, h2: HandlerId)
    requires var d := Run(evs);
      && h1 in d.handlers && h2 in d.handlers && h1 != h2
      && GenOf(d.handlers[h1].stage).Some? && GenOf(d.handlers[h2].stage).Some?
    ensures var d := Run(evs); GenOf(d.handlers[h1].stage) != GenOf(d.handlers[h2].stage)
  {
    DirectoryAlways(evs);
  }

  /**
   * A listed socket leaves the directory in exactly two ways: its own handler tears it down, or
   * another handler inserts for the same account.  No other handler's teardown touches it.
   */
  lemma OnlyOwnTeardownRemoves(evs: seq<Event>, ev: Event, a: Account)
    requires a in Run(evs).sockets
    requires var d' := Step(Run(evs), ev); a !in d'.sockets || d'.sockets[a] != Run(evs).sockets[a]
    ensures var d := Run(evs);
      && d.sockets[a] in d.drawn
      && (|| (ev == Teardown(d.drawn[d.sockets[a]]) && Step(d, ev).sockets == d.sockets - {a})
          || (ev.Insert? && ev.h != d.drawn[d.sockets[a]] && ev.h in d.handlers
              && d.handlers[ev.h].account == a && GenOf(d.handlers[ev.h].stage).Some?
              && Step(d, ev).sockets == d.sockets[a := GenOf(d.handlers[ev.h].stage).value]))
  {
    DirectoryAlways(evs);
    assert Backed(Run(evs), a);
  }

  // ---- which socket is listed ----

  /** No socket of `a` with a higher generation was inserted than the one that is listed. */
  ghost predicate NewestListed(d: Directory, a: Account) {
    a in d.sockets ==> forall i :: 0 <= i < |InsertedFor(d, a)| ==> InsertedFor(d, a)[i] <= d.sockets[a]
  }

  predicate InOrder(gens: seq<Generation>) { forall i, j :: 0 <= i < j < |gens| ==> gens[i] <= gens[j] }

  ghost predicate LatestListed(d: Directory, a: Account) {
    a in d.sockets ==>
      InsertedFor(d, a) != [] && d.sockets[a] == InsertedFor(d, a)[|InsertedFor(d, a)| - 1]
  }

  /** What is listed is always the latest insert. */
  lemma {:induction false} LatestAlways(evs: seq<Event>, a: Account)
    ensures LatestListed(Run(evs), a)
    decreases |evs|
  {
    if evs != [] {
      LatestAlways(evs[..|evs| - 1], a);
      LatestStep(Run(evs[..|evs| - 1]), evs[|evs| - 1], a);
    }
  }

  lemma LatestStep(d: Directory, ev: Event, a: Account)
    requires LatestListed(d, a)
    ensures LatestListed(Step(d, ev), a)
  {
    if Enabled(d, ev) && ev.Insert? {
      InsertedStep(d, ev, a);
    } else {
      assert InsertedFor(Step(d, ev), a) == InsertedFor(d, a);
    }
  }

  /** One event inserts at most one socket of `a`, which is then listed. */
  lemma InsertedStep(d: Directory, ev: Event, a: Account)
    ensures var d' := Step(d, ev);
      || InsertedFor(d', a) == InsertedFor(d, a)
      || (a in d'.sockets && InsertedFor(d', a) == InsertedFor(d, a) + [d'.sockets[a]])
  {}

  lemma {:induction false} InsertedGrows(evs: seq<Event>, n: nat, a: Account)
    requires n <= |evs|
    ensures InsertedFor(Run(evs[..n]), a) <= InsertedFor(Run(evs), a)
    decreases |evs|
  {
    if n == |evs| {
      assert evs[..n] == evs;
    } else {
      var pre := evs[..|evs| - 1];
      assert pre[..n] == evs[..n];
      InsertedGrows(pre, n, a);
      InsertedStep(Run(pre), evs[|evs| - 1], a);
    }
  }

  /** The listed socket is the newest of its account after each of the first `n` events. */
  ghost predicate NewestThroughout(evs: seq<Event>, a: Account) {
    forall n :: 0 <= n <= |evs| ==> NewestListed(Run(evs[..n]), a)
  }

  lemma {:induction false} NewestMeansInOrder(evs: seq<Event>, a: Account)
    requires NewestThroughout(evs, a)
    ensures InOrder(InsertedFor(Run(evs), a))
    decreases |evs|
  {
    if evs != [] {
      var pre := evs[..|evs| - 1];
      forall n | 0 <= n <= |pre| ensures NewestListed(Run(pre[..n]), a) {
        assert pre[..n] == evs[..n];
        assert NewestListed(Run(evs[..n]), a);
      }
      NewestMeansInOrder(pre, a);
      InsertedStep(Run(pre), evs[|evs| - 1], a);
      assert evs[..|evs|] == evs && NewestListed(Run(evs[..|evs|]), a);
    }
  }

  /**
   * A generation orders the connections of an account, and an insert replaces whatever is listed: at
   * every moment of a run the listed socket of `a` is the newest one inserted if and only if the
   * inserts of `a` came in generation order.
   */
  lemma NewestIffInOrder(evs: seq<Event>, a: Account)
    ensures NewestThroughout(evs, a) <==> InOrder(InsertedFor(Run(evs), a))
  {
    if NewestThroughout(evs, a) { NewestMeansInOrder(evs, a); }
    if InOrder(InsertedFor(Run(evs), a)) {
      forall n | 0 <= n <= |evs| ensures NewestListed(Run(evs[..n]), a) {
        InsertedGrows(evs, n, a);
        LatestAlways(evs[..n], a);
      }
    }
  }

  lemma RunSnoc(evs: seq<Event>, ev: Event)
    ensures Run(evs + [ev]) == Step(Run(evs), ev)
  {
    assert (evs + [ev])[..|evs|] == evs;
  }

  /** Two connections of one account have drawn their generations, in order. */
  lemma TwoDrawn() returns (evs: seq<Event>)
    ensures var d := Run(evs);
      && d.sockets == map[] && d.inserted == map[]
      && d.handlers == map[1 := Handler(7, Numbered(0)), 2 := Handler(7, Numbered(1))]
  {
    evs := [] + [Connect(1, 7)] + [Connect(2, 7)];
    RunSnoc([], Connect(1, 7));
    RunSnoc([Connect(1, 7)], Connect(2, 7));
    var d := Run(evs);
    assert d.handlers == map[1 := Handler(7, Authenticated), 2 := Handler(7, Authenticated)];
    RunSnoc(evs, Draw(1));
    RunSnoc(evs + [Draw(1)], Draw(2));
    evs := evs + [Draw(1)] + [Draw(2)];
  }

  /** The inserts need not come in order: the handlers race between drawing and inserting. */
  lemma OlderGenerationCanReplaceNewer() returns (evs: seq<Event>)
    ensures !NewestListed(Run(evs), 7) && Run(evs).sockets == map[7 := 0]
  {
    evs := TwoDrawn();
    RunSnoc(evs, Insert(2));
    RunSnoc(evs + [Insert(2)], Insert(1));
    evs := evs + [Insert(2)] + [Insert(1)];
    assert InsertedFor(Run(evs), 7) == [1, 0];
    assert InsertedFor(Run(evs), 7)[0] > Run(evs).sockets[7];
  }

  // ---- the object ----

  class TunnelRegistry {
    var sockets: Sockets
    var nextGeneration: Generation
    ghost var trace: seq<Event>          // what all handlers have done to this registry

    constructor ()
      ensures Valid() && trace == []
    {
      sockets, nextGeneration, trace := map[], 0, [];
    }

    /** The fields are those of the interleaved model after `trace`. */
    ghost predicate Valid()
      reads this
    {
      sockets == Run(trace).sockets && nextGeneration == Run(trace).next
    }

    method NextGeneration(ghost h: HandlerId) returns (g: Generation)
      requires Valid() && Enabled(Run(trace), Draw(h))
      modifies this
      ensures Valid() && trace == old(trace) + [Draw(h)]
      ensures g !in Run(old(trace)).drawn && Run(trace).handlers[h].stage == Numbered(g)
    {
      RunSnoc(trace, Draw(h));
      DirectoryAlways(trace);
      g := nextGeneration;
      nextGeneration := nextGeneration + 1;
      trace := trace + [Draw(h)];
    }

    /** `None` when the global cap refuses a new account; otherwise the replaced socket, if any. */
    method Register(a: Account, g: Generation, ghost h: HandlerId) returns (r: Option<Option<Generation>>)
      requires Valid() && h in Run(trace).handlers && Run(trace).handlers[h] == Handler(a, Numbered(g))
      modifies this
      ensures Valid() && trace == old(trace) + [Insert(h)]
      ensures |sockets| <= 4096
      ensures r.None? <==> a !in old(sockets) && |old(sockets)| == 4096
      ensures r.None? ==> sockets == old(sockets)
      ensures r.Some? ==> sockets == old(sockets)[a := g]
      ensures r.Some? ==> r.value == if a in old(sockets) then Some(old(sockets)[a]) else None
    {
      RunSnoc(trace, Insert(h));
      DirectoryAlways(trace);
      DirectoryAlways(trace + [Insert(h)]);
      trace := trace + [Insert(h)];
      if a !in sockets && |sockets| >= MAX_SOCKETS { return None; }
      r := Some(if a in sockets then Some(sockets[a]) else None);
      sockets := sockets[a := g];
    }

    /** Teardown: afterwards this handler's socket is not listed, and no other handler's was touched. */
    method RemoveIfStillCurrent(a: Account, g: Generation, ghost h: HandlerId)
      requires Valid() && h in Run(trace).handlers && Run(trace).handlers[h] == Handler(a, Listed(g))
      modifies this
      ensures Valid() && trace == old(trace) + [Teardown(h)]
      ensures forall b :: b in sockets <==> b in old(sockets) && old(sockets)[b] != g
      ensures forall b :: b in sockets ==> sockets[b] == old(sockets)[b]
    {
      RunSnoc(trace, Teardown(h));
      DirectoryAlways(trace);
      assert forall b :: b in sockets ==> Backed(Run(trace), b);
      trace := trace + [Teardown(h)];
      if a in sockets && sockets[a] == g {
        sockets := sockets - {a};
      }
    }
  }
}
