# Lluma: verified model of the credit economy, tunnel, registry and edge policies

Lluma is a network in which consumers buy blind-signed tokens with credits, spend each token on one
inference request served by some host, and hosts turn spent tokens back into credits with receipts.
This project models the state machines behind that in Dafny and proves what the design promises of
them, over every run and every interleaving.

| part | modules |
|---|---|
| shared arithmetic, counting, bytes | `Prelude`, `Bytes` |
| the eight tables and their write transactions | `Tables` (values), `DurableStore` (the class in `Store.dfy`) |
| the credit economy as interleaved atomic steps | `Economy`, with `IssueOnce`, `LedgerRows`, `AccountBooks`, `SpendChain`, `Flows`, `ZeroSum`, `TrialBudget` proving its claims |
| the issue endpoint and its idempotency cache | `Idempotency`, `Issuer` |
| `/v1/exec` and the desktop retry loop | `Exec`, `Retry` |
| the reverse tunnel, and `/v1/exec` over it | `TunnelDirectory`, `TunnelSocket`, `TunnelExec` |
| host registry and signed snapshot, and how `/v1/exec` sees them | `Registry`, `Snapshot`, `HostView` |
| wire codec and bootstrap document | `Codec`, `Bootstrap` |
| relay limiter, gateway path check, proof of work | `RateLimit`, `PathPolicy`, `ProofOfWork` |

How the model is set up:

- **Steps.** In `Economy`, every cache method, every ledger call, the counter bump, every single
  signature and every write transaction is one atomic step. Handlers of any number of requests are
  preempted between any two steps; storage faults, token spends, receipts, grants and process
  restarts happen anywhere. A step whose guard is false changes nothing, so a run is simply a
  sequence of events and the theorems quantify over all of them. A restart clears the cache and
  every running request, keeps the store, and may change the signing key and the epoch independently
  of each other, as the process settings can. A token verifies by its key and is counted under the
  epoch of the process that redeems it.
- **Ghost book-keeping.** `Meter` and `Log` count what passes by (grants, debits, refunds, bumps,
  signatures made and released). Only one part of them is read by the system: `valid`, the tokens that
  exist and the key each verifies under, stands for the signature check of the redeems. `Unblind` adds to
  it under the blind-signature assumption: one token per released signature (`FromReleased`), per computed
  signature (`FromMade`), or no bound at all (`Forgeable`).
- **Classes.** Code that updates fields in place is a class whose methods are proved against the
  functions that the run lemmas are about, or keep a ghost trace and agree with the interleaved model
  after it: `DurableStore.Store`, `Idempotency.IssueIdempotencyCache`,
  `Issuer.IssuerService`, `Exec.Broker`, `Retry.TokenStore`, `TunnelDirectory.TunnelRegistry`,
  `TunnelSocket.HostSocket`, `Registry.HostRegistry`, `RateLimit.Relay`.
- **Parameters.** Signatures, hashes, UTF-8 validity, URL parsing, the network, the clock and
  database faults are parameters. In the economy and the tunnel, 32-byte identifiers are opaque
  naturals; in the registry and the snapshot they are byte strings, because their order matters.
- **Integers.** Saturating and fixed-width arithmetic is written out (`SatAdd`, `SatSub`, `Min`).

Where the code does not do what its comments say, the code is followed, a witness is given, and the
exact condition is proved:

- The desktop client keeps the token after the last host failed and calls it untouched
  (`apps/lluma-desktop/src-tauri/src/client.rs:254`). It can already be burned
  (`KeptTokenCanBeBurned`); `KeptAndBurnedIff` says exactly when, from the stores and the
  environment that the attempts meet.
- A 409 is taken to mean that the token was spent (`client.rs:238-247`). A refused spend is also a
  409 and leaves the token unspent (`PoppedTokenCanBeUnspent`); `PoppedAndUnspentIff` says exactly when.
- Counters are said to be keyed by the token's epoch, so that the tripwire cannot false-trip
  (`crates/lluma-broker/src/counters.rs:1-9`). They are keyed by the epoch of the redeeming process,
  and a bump that storage drops is only logged. `ReusedKeyTrips` and `DroppedBumpTrips` refuse honest
  tokens; `QuietIff` says exactly when none is refused: no key is served under two epochs and no
  bump is lost.
- Debit-once needs refunds to reach the store, and a dropped one is only logged
  (`crates/lluma-broker/src/ledger.rs:80-82`): `NetChargeExact` gives the net charge exactly,
  `DroppedRefundsAccumulate` charges one key any number of times, `DebitOnceIff` is the condition.
- "One socket per account (atomic generation swap)" (`crates/lluma-broker/src/tunnel.rs:22`): an
  insert does not compare generations, so an older connection can replace a newer one
  (`OlderGenerationCanReplaceNewer`); the listed socket is always the newest exactly if the inserts
  came in generation order (`NewestIffInOrder`).
- A daily trial budget of u64::MAX makes the budget column saturate: `FullBudgetBreaksExactness` and
  `ExactIffHeadroom`.
- With `admission_m` = 0, a pending host already has enough progress: `AdmissionNeedsM` is the exact
  condition, and gives the registration of any host as a witness.
- Hosts silent for three intervals are meant to leave the snapshot
  (`crates/lluma-broker/src/registry.rs:237-238`), but `evict_stale` has no caller in the broker binary.
  In a run without sweeps any host, under any descriptor, can stay listed (`SilentHostStaysListed`), exactly
  if a 64-bit clock has room for its admission and three silent intervals (`SilentHostIff`). What clients
  see is all fresh exactly if the table holds no ACTIVE stale row (`SeenFreshIff`), which a sweep
  establishes (`ClientSeesFreshActiveHosts`).

## Model

| member | source | states |
|---|---|---|
| `ZeroSum.StrictlyZeroSum` | crates/lluma-broker/src/receipts.rs:4-8 | In every run with one token per released signature, the sum of all balances never exceeds admin plus trial grants. |
| `ZeroSum.ClaimsWithinGrants` | crates/lluma-issuer/src/service.rs:184-212 | For every token model: balances, released signatures and debits held by running requests together stay within grants plus credited receipts. |
| `ZeroSum.TripwireBoundsForgery` | crates/lluma-broker/src/service.rs:190-206 | With a broken signing key, the tripwire alone keeps balances within grants plus refunds while `issued` is below u64::MAX. |
| `ZeroSum.RefundBoundIsReached` | crates/lluma-issuer/src/service.rs:190-212 | That bound is attained, at any host and entry: a refunded batch leaves `issued` bumped, and one forged token then doubles a grant. |
| `ZeroSum.ExactConservation` | crates/lluma-broker/src/receipts.rs:103-136 | While less than u64::MAX was ever credited, balances plus debits equal grants plus refunds plus receipts, to the unit. |
| `ZeroSum.NoFalseTrip` | crates/lluma-broker/src/counters.rs:1-9 | If bumps are stored, no key is served under two epochs and tokens come only from signatures, every unspent token that verifies redeems, in every interleaving. |
| `ZeroSum.QuietIff` | crates/lluma-broker/src/service.rs:183-206 | For a store served by given deployments: no run refuses an honest token if and only if no key is served under two epochs and no bump is lost. |
| `ZeroSum.ReusedKeyTrips` | crates/lluma-broker/src/service.rs:183-188 | For any plan of deployments that serves one key under two epochs, a run with all bumps stored in which an honest token is refused. |
| `ZeroSum.TripsExactlyWhen` | crates/lluma-broker/src/counters.rs:60-66 | In every reachable state an unspent token is refused if and only if one more bound spend would pass the stored bumps. |
| `ZeroSum.DroppedBumpTrips` | crates/lluma-broker/src/main.rs:106-110 | Under any single deployment, a run in which the bump is lost and an honest token is refused. |
| `Flows.BooksStep` | crates/lluma-broker/src/ledger.rs:39-94 | Every step keeps the double-entry identity between total balance, debits, clipped credit, grants, refunds and receipts. |
| `Flows.PaidStep` | crates/lluma-issuer/src/service.rs:184-212 | Every step keeps: released signatures, refunds and held debits are covered by debits. |
| `Flows.BumpPaidStep` | crates/lluma-broker/src/counters.rs:39-45 | Every step keeps: the issued counters plus not-yet-bumped debits are covered by debits. |
| `Flows.ReleasedStep` | crates/lluma-issuer/src/service.rs:198-225 | Every step keeps: no signature is released that was not computed, key by key. |
| `Flows.MadeStep` | crates/lluma-issuer/src/service.rs:190-212 | While bumps are stored and each key belongs to one epoch, every step keeps: the signatures made and still owed in an epoch are covered by its bumps. |
| `Flows.CounterStep` | crates/lluma-broker/src/counters.rs:39-45 | Every step keeps: the durable issued counter is the number of bumps, up to saturation. |
| `Flows.TokenStep` | crates/lluma-issuer/src/service.rs:198-225 | Every step keeps: each token that verifies is backed by a signature of its key, under the chosen token model. |
| `Flows.BurnStep` | crates/lluma-broker/src/service.rs:146-152 | Every step keeps: only tokens that verified are burned, whatever keys and epochs are served. |
| `Flows.BurnEpochStep` | crates/lluma-broker/src/service.rs:183-196 | When each key belongs to one epoch, every step keeps: a token is burned under the epoch of its key. |
| `Economy.StepsAreTransactions` | crates/lluma-broker/src/store.rs:128-136 | Every step of the economy reaches the store as one of the write transactions or not at all. |
| `Economy.OutsideReachesStore` | crates/lluma-broker/src/store.rs:128-136 | Without a fault, every receipt, grant, trial, host write and redeem of a token that verifies does reach the store. |
| `ZeroSum.EconomyAlways` | crates/lluma-broker/src/main.rs:96-113 | All of these invariants hold together in every reachable state of issuer and broker on one store. |
| `IssueOnce.NetChargeExact` | crates/lluma-issuer/src/service.rs:171-225 | In every run, un-refunded debits of a key number exactly the dropped refunds, plus one once answered or while its holder is charged. |
| `IssueOnce.DebitOnce` | crates/lluma-issuer/src/service.rs:171-188 | Without a dropped refund, any interleaving of duplicate and conflicting requests leaves at most one net debit per key. |
| `IssueOnce.DebitOnceIff` | crates/lluma-issuer/src/service.rs:206-210 | Over all runs, at most one net debit per key if and only if no refund is lost. |
| `IssueOnce.OneHolder` | crates/lluma-issuer/src/idem.rs:75-102 | Two running requests never hold the same reservation. |
| `IssueOnce.OneResponse` | crates/lluma-issuer/src/idem.rs:92-98 | All answers and replays under one key carry the same response, for the same batch, with as many signatures as were paid for. |
| `IssueOnce.OnlyOwnEntry` | crates/lluma-issuer/src/idem.rs:105-121 | `release` and `store` only ever meet the caller's own pending entry and leave all other keys alone. |
| `IssueOnce.CompletedEntryStays` | crates/lluma-issuer/src/idem.rs:118-121 | No step short of a restart removes or changes a completed entry. |
| `IssueOnce.DroppedRefundsAccumulate` | crates/lluma-issuer/src/service.rs:206-210 | With refunds lost to storage faults, one key can be charged n times, for every n. |
| `Idempotency.IssueIdempotencyCache.Begin` | crates/lluma-issuer/src/idem.rs:75-102 | The outcome of the lookup, that only a reservation changes the map, and that a replay returns what was stored for that batch. |
| `Idempotency.IssueIdempotencyCache.Store` | crates/lluma-issuer/src/idem.rs:105-114 | The whole new map, and that the same request then replays this response. |
| `Idempotency.IssueIdempotencyCache.Release` | crates/lluma-issuer/src/idem.rs:118-121 | The whole new map, and that any batch may then reserve the key afresh. |
| `Idempotency.ReservationLeavesNoTrace` | crates/lluma-issuer/src/idem.rs:75-121 | Reserving and releasing restores the map; reserving and storing is storing. |
| `Issuer.IssuerService.Issue` | crates/lluma-issuer/src/service.rs:167-225 | Exactly which request gets which of the six replies, with the whole new store and cache; who is charged, and when the refund restores the balance. |
| `Issuer.HandlerIsIssue` | crates/lluma-issuer/src/service.rs:167-225 | Begin, debit, bump, every signature, store, refund and release of one task without interference are what `Issue` does, for every state of the economy. |
| `Issuer.HandlerInRun` | crates/lluma-issuer/src/service.rs:167-225 | The same inside any run: a request left to itself from its arrival on ends as `Issue` says. |
| `Issuer.StepsContinueRun` | crates/lluma-issuer/src/service.rs:167-225 | Steps taken from a reachable state are the continuation of its run. |
| `Issuer.IssuerService.CountAndSign` | crates/lluma-issuer/src/service.rs:190-225 | After the debit: issued exactly if the whole batch can be signed, otherwise refunded and released. |
| `Issuer.SignBatch` | crates/lluma-issuer/src/service.rs:200-212 | The signing loop is complete exactly if every blinded token can be signed, and otherwise stops at the first that cannot; the signatures are in order. |
| `LedgerRows.BooksBalance` | crates/lluma-broker/src/ledger.rs:74-94 | For every account in every run: balance <= earned <= balance + spent, with equality while earned is below u64::MAX. |
| `AccountBooks.AccountConservation` | crates/lluma-broker/src/receipts.rs:123-134 | For every account of every run: balance, debits and saturation loss are its admin grants, trial grants and refunds plus one credit per receipt whose host has its fingerprint. |
| `AccountBooks.EveryAccountBalances` | crates/lluma-broker/src/ledger.rs:74-94 | For every account of every run: balance, lifetime earnings and lifetime spending as read off the events, with nothing lost until more than u64::MAX came in. |
| `AccountBooks.RowStep` | crates/lluma-broker/src/ledger.rs:39-94 | Each step changes each account's row by what the event pays it and takes from it, and by nothing else. |
| `AccountBooks.ReceiptsPaid` | crates/lluma-broker/src/receipts.rs:70-134 | The receipts that paid an account are those in the table whose host has its fingerprint. |
| `DurableStore.Store.Grant` | crates/lluma-broker/src/ledger.rs:74-83 | A grant credits balance and lifetime earnings of one account, or on a fault nothing, and keeps the store sound. |
| `DurableStore.Store.Debit` | crates/lluma-broker/src/ledger.rs:85-100 | A debit succeeds exactly if storage works and the balance covers it, and changes nothing otherwise. |
| `DurableStore.Store.Balance` | crates/lluma-broker/src/ledger.rs:67-72 | The reported balance is the largest amount a debit would accept; on a fault it is zero, so it is never overstated. |
| `DurableStore.Store.BumpIssuedCounter` | crates/lluma-broker/src/counters.rs:39-45 | Raises `issued` of one epoch, saturating, and keeps redeemed <= issued. |
| `DurableStore.Store.InvariantHoldsFor` | crates/lluma-broker/src/counters.rs:88-91 | On any sound store the operator's check never reports a violation, for any epoch. |
| `DurableStore.Store.Spend` | crates/lluma-broker/src/service.rs:190-206 | Exactly which redeem is spent, already spent or refused; a spend burns, binds and counts together, and anything else changes nothing. |
| `DurableStore.Store.SpentInsert` | crates/lluma-broker/src/spent.rs:25-52 | The legacy redeem burns a token at most once and reports already-spent on a fault. |
| `DurableStore.Store.Ingest` | crates/lluma-broker/src/receipts.rs:49-138 | Exactly which receipt gets which outcome; a credited one is recorded, pays the host's own account exactly one, touches no other row, and cannot be credited again. |
| `DurableStore.Store.GrantTrial` | crates/lluma-broker/src/trial.rs:49-123 | Exactly which request gets which outcome; a grant writes the record, the day, the account's own row and the epoch's count together, and nothing else is written. |
| `SpendChain.RedeemedCountsBoundSpends` | crates/lluma-broker/src/service.rs:190-206 | In every run RECEIPTS is within SPEND_HOST within SPENT, receipts name the bound host, redeemed <= issued, and redeemed is the number of bound spends of the epoch while issued is below u64::MAX. |
| `SpendChain.BindingNeverChanges` | crates/lluma-broker/src/service.rs:190-206 | What an earlier state of a run records about a spend stands in every later state, restarts included. |
| `SpendChain.CreditedAtMostOnce` | crates/lluma-broker/src/receipts.rs:94-136 | Two events of one run that credit the same spend are the same event. |
| `TrialBudget.BudgetRespected` | crates/lluma-broker/src/trial.rs:68-123 | In every run each day's column is grant times accounts recorded that day, within the budget, and total trial credit is grant times recorded accounts. |
| `TrialBudget.ExactIffHeadroom` | crates/lluma-broker/src/trial.rs:84-97 | The columns are exact in every run if and only if the budget is below u64::MAX or the grant is zero. |
| `TrialBudget.GrantedAtMostOnce` | crates/lluma-broker/src/trial.rs:71-77 | Two events of one run that grant the same account a trial are the same event, whatever the days. |
| `TrialBudget.FullBudgetBreaksExactness` | crates/lluma-broker/src/trial.rs:84-97 | With a budget of u64::MAX, a run after which the day's column no longer equals what was granted. |
| `TrialBudget.OneTrialPerAccount` | crates/lluma-broker/src/trial.rs:71-77 | A trial record survives every step unchanged, and a further request of that account changes nothing on any day. |
| `TrialBudget.SybilBound` | crates/lluma-broker/src/trial.rs:1-12 | All balances together stay within admin grants plus the daily budget times the days on which trials were granted. |
| `Exec.ReplyTellsSpend` | crates/lluma-broker/src/service.rs:160-262 | Which replies mean that this call burned the token and bound it to the host; all others leave the store unchanged; only a 500 is given on both sides of the spend. |
| `Exec.ReplyExactly` | crates/lluma-broker/src/service.rs:141-262 | Exactly which call gets which reply and what it writes: no host for an unknown or pending host, a full socket, or a tunnel host without a socket; then double spend, refusal, or one burn, bind and count. |
| `Exec.Broker.Resolve` | crates/lluma-broker/src/service.rs:141-178 | The checks before the spend: a route is in hand exactly for a verified token and a routable ACTIVE host, and otherwise the reply does not depend on the spend. |
| `Exec.Broker.Exec` | crates/lluma-broker/src/service.rs:141-262 | The handler as two transactions with anything committed by others in between: reply and new store; with nowhere to send the job the store is left to the others. |
| `Retry.ForwardedAtMostOnce` | apps/lluma-desktop/src-tauri/src/client.rs:223-256 | Over any host list, with restarts between calls, anything committed before, inside and after each call and late calls counted, one token's job is forwarded at most once, to the host it is bound to, and an answer is one to that forward. |
| `Retry.LoopPersists` | apps/lluma-desktop/src-tauri/src/client.rs:217-222 | The loop and whatever runs beside it rewrite nothing recorded about any spend. |
| `Retry.PoppedAndUnspentIff` | apps/lluma-desktop/src-tauri/src/client.rs:230-247 | The client drops an unspent token if and only if, at the first attempt that reports back from beyond the spend, the token is unspent and storage fails or the wire trips. |
| `Retry.KeptAndBurnedIff` | apps/lluma-desktop/src-tauri/src/client.rs:248-256 | The client keeps a burned token if and only if every attempt that reports back spends without delivering, and the token was burned before the loop, by one of its calls, or beside one of them. |
| `Retry.AnsweredIff` | apps/lluma-desktop/src-tauri/src/client.rs:226-238 | The client gets an answer, from exactly that host, if and only if some attempt delivers one to a spend of its own and none before it gave a final word. |
| `Retry.KeptTokenCanBeBurned` | apps/lluma-desktop/src-tauri/src/client.rs:254-256 | For any deployment and dial-in host, a run and a loop from its store that ends with the token kept and burned. |
| `Retry.PoppedTokenCanBeUnspent` | apps/lluma-desktop/src-tauri/src/client.rs:238-247 | For any deployment and dial-in host, a run and a loop from its store that ends with the token popped and unspent. |
| `Retry.ModelsFirstIsStableSort` | apps/lluma-desktop/src-tauri/src/client.rs:211-214 | The order of attempts is a permutation of the snapshot, hosts with a model first, snapshot order kept within each kind. |
| `Retry.TriedInSortedOrder` | apps/lluma-desktop/src-tauri/src/client.rs:214-226 | The attempts follow that order, position by position. |
| `Retry.TryHost` | crates/lluma-client/src/lib.rs:394-435 | One attempt with its outcome cases: answer, 409, or any other error, with a request or a reply possibly lost. |
| `Retry.TokenStore.SendMessage` | apps/lluma-desktop/src-tauri/src/client.rs:186-256 | The client method computes the loop's outcome, pops exactly on answer or 409, and touches nothing without tokens or hosts. |
| `TunnelDirectory.DirectoryAlways` | crates/lluma-broker/src/tunnel.rs:132-163 | In every interleaving at most 4096 sockets are listed, and each belongs to the handler that inserted it for that account and has not torn it down. |
| `TunnelDirectory.GenerationsUnique` | crates/lluma-broker/src/tunnel.rs:132-134 | Two handlers never carry the same generation. |
| `TunnelDirectory.OnlyOwnTeardownRemoves` | crates/lluma-broker/src/tunnel.rs:155-163 | A listed socket leaves only by its own handler's teardown, or by being replaced by another handler of the same account. |
| `TunnelDirectory.NewestIffInOrder` | crates/lluma-broker/src/tunnel.rs:143-153 | At every moment of a run the listed socket of an account is the newest one inserted if and only if its inserts came in generation order. |
| `TunnelDirectory.LatestAlways` | crates/lluma-broker/src/tunnel.rs:143-163 | In every run the listed socket is the latest one inserted for its account. |
| `TunnelDirectory.OlderGenerationCanReplaceNewer` | crates/lluma-broker/src/tunnel.rs:268-284 | An interleaving in which the older generation replaces the newer. |
| `TunnelDirectory.TunnelRegistry.NextGeneration` | crates/lluma-broker/src/tunnel.rs:132-134 | Draws a generation nobody has drawn before, in step with the interleaved model. |
| `TunnelDirectory.TunnelRegistry.Register` | crates/lluma-broker/src/tunnel.rs:143-153 | In step with the model: refuses exactly a new account at the cap of 4096, otherwise lists the socket and returns the replaced one. |
| `TunnelDirectory.TunnelRegistry.RemoveIfStillCurrent` | crates/lluma-broker/src/tunnel.rs:157-163 | In step with the model: afterwards the handler's own socket is not listed, and every other listed socket is untouched. |
| `TunnelExec.AnswererIsBoundHost` | crates/lluma-broker/src/service.rs:222-232 | In every interleaving of directory, sockets, store and calls: an answered call carries a Done frame read from the socket of a handler authenticated as its host, and that host is the one in SPEND_HOST. |
| `TunnelExec.GuardHeldAcrossSpend` | crates/lluma-broker/src/tunnel.rs:183-211 | From the reservation through the spend until the call ends, its guard is one of the live guards of its socket. |
| `TunnelExec.OneAnswerEach` | crates/lluma-broker/src/tunnel.rs:215-245 | No two calls are answered for one token, and no two for one request id of a socket. |
| `TunnelExec.CallCanBeAnswered` | crates/lluma-broker/src/tunnel.rs:215-245 | For any host, token and response, a run from connect to answer. |
| `TunnelExec.TurnedAwayNeverBurns` | crates/lluma-broker/src/service.rs:161-165 | A call that a full socket turned away never burns its token, however the run goes on. |
| `TunnelExec.ReserveTunnel` | crates/lluma-broker/src/tunnel.rs:194-211 | At capacity exactly if an open socket is listed and has 16 live guards; otherwise reserved, or no socket. |
| `TunnelExec.ReserveAndRedeem` | crates/lluma-broker/src/service.rs:154-206 | A call to a host with 16 jobs in flight leaves the store to the others, and on every way out the slot is free again. |
| `TunnelExec.InvAlways` | crates/lluma-broker/src/service.rs:141-262 | Directory, sockets, spend chain and calls keep their invariants together in every run. |
| `TunnelSocket.InflightIsLiveGuards` | crates/lluma-broker/src/tunnel.rs:83-103 | With any number of weak-CAS loops and guard drops, `inflight` equals the live guards and stays within 0..16. |
| `TunnelSocket.RefusedOnlyWhenFull` | crates/lluma-broker/src/tunnel.rs:83-99 | A caller is turned away only if 16 guards were live at some moment of its own attempt. |
| `TunnelSocket.AnswerIsOwnFrame` | crates/lluma-broker/src/tunnel.rs:215-245 | An answer comes from a size-valid Done frame of this socket with the caller's own id, shared with no other call. |
| `TunnelSocket.JobsAlways` | crates/lluma-broker/src/tunnel.rs:215-245 | In every interleaving: ids are drawn once, a pending entry has an open channel and belongs to the call that drew it or to a cancelled one, and answers come from frames. |
| `TunnelSocket.ResolvedForever` | crates/lluma-broker/src/tunnel.rs:372-378 | What a waiter was handed first is all it is ever handed, over the rest of any run. |
| `TunnelSocket.UnknownIdIgnored` | crates/lluma-broker/src/tunnel.rs:344-352 | A Done or Fail frame for a late or unknown id changes no waiter, channel, call or count. |
| `TunnelSocket.PendingBounded` | crates/lluma-broker/src/tunnel.rs:215-245 | Pending entries never outnumber live guards plus cancelled dispatches. |
| `TunnelSocket.PendingWithinInflight` | crates/lluma-broker/src/tunnel.rs:215-245 | Without cancelled dispatches the pending map is no larger than `inflight`. |
| `TunnelSocket.HostSocket.TryReserve` | crates/lluma-broker/src/tunnel.rs:83-99 | In step with the model: run alone, the CAS loop with any number of spurious failures succeeds exactly if fewer than 16 guards are live. |
| `TunnelSocket.HostSocket.Release` | crates/lluma-broker/src/tunnel.rs:185-191 | Dropping a live guard leaves the counter at the number of the other live guards; it cannot underflow. |
| `TunnelSocket.HostSocket.Enlist` | crates/lluma-broker/src/tunnel.rs:221-226 | Draws an id that no pending entry has and lists the waiter under it, in step with the model. |
| `TunnelSocket.HostSocket.Deliver` | crates/lluma-broker/src/tunnel.rs:372-378 | In step with the model: the waiter of the id is taken out and handed the response or an error; without one nothing changes. |
| `TunnelSocket.HostSocket.FailAllPending` | crates/lluma-broker/src/tunnel.rs:108-112 | In step with the model: nobody is left listed, and no channel is left open. |
| `Registry.AdmissionNeedsM` | crates/lluma-broker/src/registry.rs:221-228 | Over all runs, ACTIVE means progress >= M if and only if M >= 1; with M = 0 registering any host is a counterexample. |
| `Registry.ActiveIffProgressAlways` | crates/lluma-broker/src/registry.rs:221-228 | With M >= 1, in every run and whatever the clock does, a host is ACTIVE exactly when its progress is at least M. |
| `Registry.AdmissionTakesTime` | crates/lluma-broker/src/registry.rs:214-230 | With ordered time, last heartbeat >= anchor + progress x interval, the anchor being registration or the last heartbeat before the latest demotion. |
| `Registry.ProgressCountsTimelyBeats` | crates/lluma-broker/src/registry.rs:211-230 | Over every ordered run, progress, status, counter and last heartbeat of a host are exactly what the times and counters of the events determine: one unit per accepted heartbeat at least an interval after the reading before it, from zero after three silent intervals. |
| `Registry.ActiveHostsWaited` | crates/lluma-broker/src/registry.rs:214-230 | An ACTIVE host's last heartbeat is at least M intervals after its anchor. |
| `Registry.ClockStepBackBreaksPace` | crates/lluma-broker/src/registry.rs:218-230 | Any host heard at an earlier second than it registered has its last heartbeat before anchor + progress x interval. |
| `Registry.AcceptedCountersIncrease` | crates/lluma-broker/src/registry.rs:211-220 | Over every run, through re-registration and eviction, the counters accepted from a host strictly increase and end at the stored one. |
| `Registry.RowsUpToDate` | crates/lluma-broker/src/registry.rs:142-164 | Over every run a row shows its host's latest registration and the load of its latest accepted heartbeat. |
| `Registry.EvictTwice` | crates/lluma-broker/src/registry.rs:239-271 | A second sweep at the same moment finds and changes nothing. |
| `Registry.ThresholdExact` | crates/lluma-broker/src/registry.rs:244-258 | The saturating threshold decides exactly now - last_hb > 3 x interval on 64-bit clocks. |
| `Registry.HostRegistry.Register` | crates/lluma-broker/src/registry.rs:109-167 | Exactly which request gets which outcome; a new row starts pending, a refresh keeps status, counter, last heartbeat, load and progress; a rejected request writes nothing. |
| `Registry.HostRegistry.Heartbeat` | crates/lluma-broker/src/registry.rs:174-235 | Accepted exactly if known, signed and newer; progress rises exactly if an interval has passed, ACTIVE from M on; every other field and row stays. |
| `Registry.HostRegistry.EvictStale` | crates/lluma-broker/src/registry.rs:239-271 | After more than three silent intervals a row is pending with no progress, every other row is as it was, and the count is the number of rows that changed. |
| `Snapshot.ClientSeesFreshActiveHosts` | crates/lluma-client/src/lib.rs:98-114 | After a sweep, every client recovers from the published bytes exactly the ACTIVE hosts heard within three intervals, ascending, each with the row's account, key, models and load. |
| `Snapshot.SeenFreshIff` | crates/lluma-broker/src/registry.rs:237-258 | What the client recovers from a published table is all within three intervals if and only if the table holds no ACTIVE stale row. |
| `Snapshot.SilentHostIff` | crates/lluma-broker/src/registry.rs:237-258 | For every host and descriptor: an ordered sweep-free run on a 64-bit clock whose listing holds it ACTIVE but silent for more than three intervals exists if and only if max(M, 1) x interval + 3 x interval + 1 fits the clock. |
| `Snapshot.SilentHostStaysListed` | crates/lluma-broker/src/service.rs:298-310 | Such a run, in which the host registers under any given descriptor and is then only heard. |
| `Snapshot.PublishedVerifies` | crates/lluma-broker/src/snapshot.rs:76-110 | Both verifiers read back exactly the header and the listing that was published. |
| `Snapshot.VerifiersAgree` | crates/lluma-broker/src/snapshot.rs:90-110 | The broker's and the client's verifier accept the same responses with the same body. |
| `Snapshot.AcceptedExactly` | crates/lluma-client/src/lib.rs:98-114 | A response is accepted exactly if it is 65536 bytes under a genuine 64-byte signature and its prefix points inside them at an encoding of the body. |
| `HostView.RegistryStepsAreHostWrites` | crates/lluma-broker/src/registry.rs:131-271 | Every registry step reaches the economy's host table as host writes: one per registration or accepted heartbeat, one per demoted host. |
| `HostView.ResolvesActiveRows` | crates/lluma-broker/src/service.rs:278-294 | What the broker resolves is exactly the ACTIVE registry rows, at their registered addresses. |
| `HostView.ListedHostResolves` | crates/lluma-broker/src/service.rs:278-294 | A host recovered from a snapshot and not demoted since is resolved by the broker, at the address it registered last. |
| `Snapshot.Build` | crates/lluma-broker/src/snapshot.rs:27-55 | The listing is strictly ascending by account and shows exactly the ACTIVE rows, field by field. |
| `Snapshot.EntriesUpToDate` | crates/lluma-broker/src/snapshot.rs:44-51 | Over any run, a published entry carries the key and models its host registered last and the load of its latest accepted heartbeat. |
| `Snapshot.ListingShowsOnlyActive` | crates/lluma-broker/src/snapshot.rs:72-75 | Tables that agree on their ACTIVE entries yield the same listing, hence the same bytes. |
| `Snapshot.EncodeAndPad` | crates/lluma-broker/src/snapshot.rs:60-70 | Fails exactly if the body exceeds 65532 bytes; otherwise 65536 bytes: the length in four bytes, least significant first, the body, and zeros. |
| `Snapshot.UnpadPadded` | crates/lluma-broker/src/snapshot.rs:103-110 | Stripping by the length prefix inverts padding. |
| `Snapshot.Publish` | crates/lluma-broker/src/snapshot.rs:76-86 | Publishes 65536 signed bytes of the listing, or nothing exactly if it does not fit. |
| `Snapshot.BodyLawful` | crates/lluma-core/src/wire.rs:174-196 | The snapshot body's wire form decodes to what was encoded and ignores what follows. |
| `Snapshot.BodyLayout` | crates/lluma-core/src/wire.rs:174-196 | A snapshot body on the wire is its fields in declaration order. |
| `Codec.AppendIsOneWay` | crates/lluma-core/src/wire.rs:215-223 | Appending fields to any lawful record: old decoders read every new document, new decoders reject every old one. |
| `Codec.ProperPrefixRejected` | crates/lluma-core/src/wire.rs:215-223 | No proper prefix of an encoding decodes, for every lawful codec. |
| `Codec.PrefixFree` | crates/lluma-core/src/wire.rs:202-233 | No encoding is a prefix of another value's encoding. |
| `Codec.VarintLayout` | crates/lluma-core/src/wire.rs:202-233 | Lengths and integers are the shortest little-endian sequence of seven-bit groups. |
| `Bootstrap.BootstrapRoundTrip` | crates/lluma-core/src/wire.rs:202-233 | Decoding inverts encoding for every document, whatever trails it. |
| `Bootstrap.DocLayout` | crates/lluma-core/src/wire.rs:202-233 | A document on the wire is its fields in declaration order, and an old document is the first five. |
| `Bootstrap.OldClientReadsNewDoc` | crates/lluma-client/tests/bootstrap.rs:81-100 | The five-field decoder recovers the first five fields of every new document. |
| `Bootstrap.NewClientRejectsOldDoc` | crates/lluma-client/tests/bootstrap.rs:103-118 | The current decoder rejects every five-field encoding. |
| `Bootstrap.TruncatedDocRejected` | crates/lluma-core/src/wire.rs:215-223 | A document cut at any point is rejected. |
| `Bootstrap.SignedDocAcceptedIff` | crates/lluma-client/src/lib.rs:27-64 | A genuinely signed document comes through unchanged exactly if version, key config, relay URL, tunnel URL and difficulty are acceptable. |
| `Bootstrap.OnlySignedDocsAccepted` | crates/lluma-client/src/lib.rs:31-38 | A document is refused as a crypto error exactly if it is unsigned; what is accepted was decoded from the signed bytes and is consumable. |
| `Bootstrap.SignedOldDocRefused` | crates/lluma-client/tests/bootstrap.rs:103-118 | An old blob is refused by a new client even under a genuine signature. |
| `RateLimit.EvictionUnobservable` | crates/lluma-relay/src/lib.rs:123-130 | For every request sequence with ordered time, the limiter with eviction decides as the one that never evicts. |
| `RateLimit.ExactLimit` | crates/lluma-relay/src/lib.rs:118-141 | A request is let through if and only if capacity >= 1 and, from every earlier request of its address on, one more acceptance stays within capacity + rate x time. |
| `RateLimit.BurstPasses` | crates/lluma-relay/src/lib.rs:131-140 | The first `capacity` requests of an address are all let through. |
| `RateLimit.WindowBound` | crates/lluma-relay/src/lib.rs:118-141 | In any window of a run one address is accepted at most capacity plus the window's refill times. |
| `RateLimit.AcceptedBounded` | crates/lluma-relay/src/lib.rs:131-140 | From any state, acceptances of one address never exceed its level plus the refill since. |
| `RateLimit.ConfiguredWindow` | crates/lluma-relay/src/lib.rs:121-122 | For the configured rate that is capacity + rate x length. |
| `RateLimit.Relay.Allow` | crates/lluma-relay/src/lib.rs:118-141 | Over any sequence of calls with an ordered clock, each answer is the one that law gives for the requests and answers before it. |
| `RateLimit.Relay.Take` | crates/lluma-relay/src/lib.rs:124-140 | Evict if the map is large, refill up to capacity, take one token if there is one. |
| `PathPolicy.AllowedIffSegmentsExtend` | crates/lluma-gateway/src/lib.rs:88-123 | The string test accepts exactly the clean paths whose segment list extends an allowed prefix's, strictly for a trailing slash. |
| `PathPolicy.AllowedPathIsNormal` | crates/lluma-gateway/src/lib.rs:88-113 | Dot-segment removal (section 5.2.4 of RFC 3986) leaves every accepted path unchanged. |
| `ProofOfWork.ZeroBitsMeaning` | crates/lluma-crypto/src/account.rs:371-382 | For a digest of n bytes, at least d leading zero bits if and only if the big-endian value is below 2^(8n-d). |
| `ProofOfWork.LeadingZeroBits` | crates/lluma-crypto/src/account.rs:371-382 | The byte loop with early exit computes the leading zero bits. |
| `ProofOfWork.PowVerify` | crates/lluma-crypto/src/account.rs:387-402 | Accepts exactly if the digest's value is below 2^(8n-difficulty). |
| `ProofOfWork.PowSolve` | crates/lluma-crypto/src/account.rs:405-419 | Returns the least nonce that verifies, little-endian, and terminates whenever one exists. |

## Left out

- Cryptography: RSA blind signing, HPKE, OHTTP, Ed25519, Argon2 and BLAKE3 are parameters; unforgeability enters only through the `Unblind` guard.
- HTTP: routing, JSON, status codes and the request checks before the idempotency lookup; they change no state.
- The database: redb itself, the row encoding and disk faults; tables are typed maps and a transaction commits or changes nothing.
- `Retry.ForwardedAtMostOnce`: that the answer was produced by the host is proved for tunnel routes (`TunnelExec.AnswererIsBoundHost`); over dial-in it rests on the network.
- Registry storage faults: a failed registry transaction changes nothing and is not an event of a run.
- Idempotency across restart: the cache is in memory, so debit-once is proved per process lifetime.
- Mutex poisoning, a job frame that cannot be serialized, u64 wrap-around of generations and request ids, and the tunnel's handshake, pings and timeouts.
- `TunnelSocket.PendingWithinInflight`: assumes that no dispatch future is cancelled; `PendingBounded` covers the general case.
- `RateLimit.Relay.Allow`: tokens and time are reals, so f64 rounding is not modelled.
- `ProofOfWork.PowSolve`: requires that some 64-bit nonce verifies; otherwise the scan runs forever.
- `Snapshot.PublishedVerifies`: takes the limits of the Rust types (lengths below 2^64, valid UTF-8 model names) as premises on the table.
- `Issuer.IssuerService.Issue`: one request without interference; interleavings are the subject of `Economy` and `IssueOnce`, joined to it by `HandlerIsIssue`.
- UTF-8 validation and strict URL parsing: predicates passed in as parameters.
- Ingress-address classification, the gateway's forwarding, the OpenAI adapter, Ollama management, hardware detection, downloads, Tauri commands, key generation, web and operations files.
- The in-memory ledger and spent-set: weaker versions of the durable ones.
