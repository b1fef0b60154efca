# Service registry membership table

A model of the registry service of a small Go microservice demo. The registry
holds one in-memory table of service registrations. It changes that table on
register and deregister requests and on heartbeat probes. It pushes membership
patches to every registration that depends on a changed service.

Modules, one per part of the program:

- `Records` (`records.dfy`): the records of `registry/registration.go`. These are
  `Registration`, `PatchEntry`, `Patch` and the shipped service names.
- `Patches` (`patches.dfy`): what gets pushed, as functions.
  - `SeedEntries` is the bootstrap patch a newcomer receives.
  - `ConsumerSends` is what one dependent receives for a change.
  - `FanOut` is what all dependents receive for a change.
  - `ProviderEntries` and `Deliveries` are independent reference definitions.
    `SeedEntriesInStoreOrder` proves `SeedEntries` equal to `ProviderEntries`
    when the newcomer lists no required name twice.
    `SingleChangeFanOut` proves `FanOut` equal to `Deliveries` for a non-empty change
    about a single name, when no registration lists a required name twice.
    When a required name repeats, the code sends repeated entries and repeated
    POSTs, and the model does too.
    Without those conditions, `SeedEntriesExact`, `FanOutRelevant` and
    `FanOutComplete` still characterise what is sent.
- `Membership` (`membership.dfy`): the table as a value `Store`. It holds the
  registrations and the log of POSTs attempted so far. `Appended` and `Removed`
  are the effects of `add` and `remove`.
- `Heartbeat` (`heartbeat.dfy`): one probe round as the reference function
  `PlannedRound`. `Replay` applies the store calls the round makes.
- `Server` (`server.dfy`): the imperative code.
  - The `Registry` class stands for the package-level `reg` instance. Its fields
    are `registrations` and `outbox`.
  - Its methods are loops proved against the functions above: `Notify`,
    `BootstrapPatch`, `SendRequiredServices`, `Add`, `Remove` and `Heartbeat`.
  - Module-level methods: `Select` (the filtering loops), `ConsumerPushes` (one
    notification goroutine's body) and `ServeHTTP` (the verb dispatch).
- `Scenarios` (`scenarios.dfy`): a logger service and a grading service that
  depends on it, registered, evicted and recovered.

Environment inputs:

- Outgoing POSTs are not performed. Each POST becomes a `Send(url, patch)` record
  appended to `outbox`, whether or not it is delivered.
- `reachable: set<string>` says which URLs accept a POST at the transport level.
  `http.Post` fails only at that level.
- Heartbeat results are given as `outcomes: seq<bool>`. `outcomes[k]` says
  whether probe `k` answered 200.
- JSON decoding of a POST body and reading a DELETE body are given in the
  `Request` (`decoded`, `body`).

Points where a reader might expect one behaviour and the code does another.
The model follows the code in each:

- Duplicate URLs. A reader might expect a second registration under a stored
  `serviceURL` to be rejected. `add` appends without checking
  (registry/server.go:24-27), so two entries can share a URL; `AddAppends`
  shows it.
- Eviction timing. A reader might expect eviction after three failed probes.
  `heartbeat` evicts on the first failed probe and re-adds on a later success
  in the same round (registry/server.go:162-176).
- Restoring evicted entries. A reader might expect an entry evicted in an
  earlier tick to come back once it answers again. Each tick iterates over the
  current table (registry/server.go:151), and the evicted entry is no longer in
  it, so it is never probed again.
- Unknown URL on DELETE. A reader might expect a client error such as 404.
  `remove` fails and `ServeHTTP` answers 500 (registry/server.go:145, 234-238).
- A POST whose bootstrap delivery fails. A reader might expect 400 to mean that
  nothing changed. By then `add` has already stored the registration and
  broadcast its arrival (registry/server.go:26-37, 218-222).

## Model

| member | source | states |
|---|---|---|
| `Patches.FilterExact` | registry/server.go:59-70 | Every entry carrying the name survives the filter as often as it occurs in the list, and no other entry survives. |
| `Patches.FilterSingleName` | registry/server.go:59-70 | A list of entries all named `n` is kept whole by the filter on `n` and emptied by the filter on any other name. |
| `Patches.SeedForExact` | registry/server.go:93-101 | The inner bootstrap scan yields only the provider's own entry, and yields it exactly when the provider's name is required. |
| `Patches.SeedForSingle` | registry/server.go:93-101 | When no required name repeats, the inner scan yields the provider's entry once if its name is required, else nothing. |
| `Patches.SeedEntriesExact` | registry/server.go:90-103 | An entry is in the bootstrap Added list exactly when it names a stored registration whose service name is required. |
| `Patches.SeedEntriesInStoreOrder` | registry/server.go:90-103 | When no required name repeats, the bootstrap Added list is exactly the required providers' (name, url) pairs, once each, in store order. |
| `Patches.ConsumerSendsRelevant` | registry/server.go:51-78 | Every POST a dependent receives goes to its update URL, is non-empty, and is the part of the change about one name it requires; an unreachable dependent gets at most one POST. |
| `Patches.ConsumerSendsComplete` | registry/server.go:51-78 | A reachable dependent receives, for every required name, the part of the change about that name whenever that part is non-empty. |
| `Patches.ConsumerSendsSingle` | registry/server.go:51-78 | For a change about one name, a dependent listing each name once receives the whole change once if it requires that name, else nothing, reachable or not. |
| `Patches.FanOutRelevant` | registry/server.go:43-81 | Every POST of a broadcast is non-empty and goes to the update URL of a stored registration, carrying the part of the change about a name that registration requires. |
| `Patches.FanOutComplete` | registry/server.go:43-81 | Every reachable stored registration receives, for each name it requires, the non-empty part of the change about that name. |
| `Patches.SingleChangeFanOut` | registry/server.go:43-81 | A change about one name reaches each registration requiring it exactly once, whole, in store order, and nothing else is sent. |
| `Membership.FirstMatch` | registry/server.go:129-130 | The result is the index of the first registration stored under the URL, with none before it; it is `None` exactly when no registration has that URL. |
| `Membership.AddAppends` | registry/server.go:24-27 | `add` keeps every stored registration in place, puts the new one last and only extends the log; a URL that was already stored ends up in two entries. |
| `Membership.AddSeedsNewcomer` | registry/server.go:26-28 | The first POST of `add` goes to the newcomer's update URL. It has no removals, and its additions are exactly the required stored providers, the newcomer included when it requires its own name. |
| `Membership.AddBroadcast` | registry/server.go:24-39 | When required names do not repeat, `add` sends the bootstrap patch and then one one-entry addition patch to each registration requiring the newcomer's name, the newcomer included. |
| `Membership.RemoveDeletesFirstMatch` | registry/server.go:129-142 | `remove` of a stored URL succeeds and deletes only its first entry. The table loses exactly one entry and the others keep their order (and multiset). |
| `Membership.RemoveUnknown` | registry/server.go:129-145 | `remove` of a URL that is not stored fails with `NotFound` and leaves the table and the log unchanged. |
| `Membership.RemoveBroadcast` | registry/server.go:131-140 | When required names do not repeat, `remove` sends one patch `{added: [], removed: [(name, url)]}` to each dependent of the removed name. Dependents are taken from the table before the splice, so the removed entry counts too. |
| `Heartbeat.FirstSuccess` | registry/server.go:156-168 | The index of the first successful probe among the first n, or n when none succeeds. |
| `Heartbeat.PlannedRound` | registry/server.go:155-179 | A round makes 1 to 3 probes and every probe but the last failed. It stops at the first success, and earlier only when the removal fails, which ends the round after one probe with the single call remove(url). It calls nothing when the first probe succeeds. Otherwise it calls remove once, first. It calls add exactly when the URL was stored and a later probe succeeds. Its only calls are remove(url) and add(reg). |
| `Heartbeat.RoundRulesDetermineRound` | registry/server.go:155-179 | The round rules above leave no choice: any probe count and call list that follow them are those of `PlannedRound`. |
| `Heartbeat.RoundEffect` | registry/server.go:155-179 | After a round the table is unchanged on a first success or an unstored URL. It loses the entry when all probes fail. On a later success it gets the entry back at the end of the table. |
| `Server.Select` | registry/server.go:59-70 | The loop returns exactly the entries carrying the name, in order, and the send flag is set exactly when it found one. |
| `Server.ConsumerPushes` | registry/server.go:49-79 | One notification goroutine's loop produces exactly `ConsumerSends` for its registration, stopping after the first failed delivery. |
| `Server.Registry.constructor` | registry/server.go:196-199 | The registry starts with no registrations and no POSTs sent. |
| `Server.Registry.Notify` | registry/server.go:43-81 | The log grows by exactly the fan-out of the change over the current table; the table is untouched. |
| `Server.Registry.BootstrapPatch` | registry/server.go:90-103 | The nested loops build a patch with no removals whose additions are `SeedEntries` of the table. |
| `Server.Registry.SendRequiredServices` | registry/server.go:85-109 | Exactly one POST of the bootstrap patch is sent to the newcomer's update URL, even when empty; it fails exactly when that URL is unreachable. |
| `Server.Registry.Add` | registry/server.go:24-39 | The new state is `Appended` of the old; the error is the bootstrap delivery's. |
| `Server.Registry.Remove` | registry/server.go:127-146 | The new state is `Removed` of the old; the result is `NotFound` exactly when no entry has the URL. |
| `Server.Registry.Heartbeat` | registry/server.go:155-179 | The probes made and the store calls issued are those of `PlannedRound`. The new state is the old one with those calls replayed. |
| `Server.ServeHTTP` | registry/server.go:204-245 | POST: an undecodable body gives 400 and no change; otherwise the registration is added, and a failed add gives 400 and success 200. DELETE: an unreadable body gives 500 and no change; otherwise the body's URL is removed, and `NotFound` gives 500 and success 200. Any other verb gives 405 and no change. |
| `Scenarios.RegisterLoggerThenGrading` | registry/server.go:24-39 | Registering a logger and then a grading service that requires it sends the logger an empty seed and the grading service `{added: [(LoggerService, L)], removed: []}`, and nothing else. |
| `Scenarios.EvictLogger` | registry/server.go:127-142 | Removing the logger's URL leaves only the grading service stored and pushes `{added: [], removed: [(LoggerService, L)]}` to it. |
| `Scenarios.LoggerEvicted` | registry/server.go:155-179 | Three failed probes of the logger take three probes, leave only the grading service stored and push `{added: [], removed: [(LoggerService, L)]}` to the grading service. |
| `Scenarios.RecoveryRound` | registry/server.go:155-179 | A failed probe followed by a success makes two probes, calling remove and then add. |
| `Scenarios.ReadmitLogger` | registry/server.go:24-39 | Adding the logger to a table holding only the grading service sends the logger an empty seed and the grading service the logger's arrival. |
| `Scenarios.EvictThenReadmit` | registry/server.go:24-39 | Removing and re-adding the logger puts it after the grading service, which is told of the removal and then of the addition. |
| `Scenarios.LoggerRecoversWithinRound` | registry/server.go:155-179 | A failed probe then a success evicts and re-adds the logger after the grading service. The grading service is told of the removal and then of the addition. |

## Left out

- HTTP transport and JSON encoding in `sendPatch` (registry/server.go:113-124): a POST is recorded in `outbox`, and its delivery is decided by `reachable`. Marshalling errors cannot occur for these records and are not modelled. The JSON difference between a nil and an empty list is not modelled.
- Reachability that changes during an operation: `reachable` is one set for the whole operation, so an update URL accepts every POST of a broadcast or refuses every one. A dependent whose delivery fails partway through, after earlier POSTs to it succeeded (registry/server.go:73-75), is not modelled. This is also why an unreachable dependent receives at most one POST in `ConsumerSendsRelevant`.
- `http.Get` probes (registry/server.go:157): their outcomes are the input `outcomes`. A transport error and a non-200 status are both a failed probe.
- Goroutines, the read/write mutex, the wait group and the start-once guard (registry/server.go:43-49, 150-153, 187-193): each store operation is one atomic step. The notification goroutines run one after another in table order. The interleavings of concurrent requests are not modelled.
- `time.Sleep` and the endless tick loop of `heartbeat` (registry/server.go:148-149, 178-183): one round for one registration is modelled. The outer loop over the table, and the wait and sleep it performs after each registration, are not.
- Slice aliasing between the tick loop and `remove` (registry/server.go:140, 151): `range` walks the table's backing array while `remove` splices it in place, so an eviction can shift later entries under a running tick. The model gives one round for one registration, so this is not modelled.
- `Heartbeat.PlannedRound`: requires at least three probe outcomes, one per possible attempt. Only as many as the round consumes are read.
- `remove` looks entries up in the package-level `reg` rather than its receiver (registry/server.go:129-140). With one registry instance the two are the same object, and the model uses the object itself.
- Logging calls throughout: no effect on state.
- `registry/client.go`, `service/service.go`, `logger/server.go`, `logger/client.go` and the `cmd/` programs are not part of this model. They are the client wrapper, the HTTP start-up helper, the log sink and the composition roots.
