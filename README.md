# Cloudflare DDNS reconciliation engine, modelled in Dafny

This project models the core of a small dynamic-DNS updater. Each run finds the
machine's public IP address and walks the configured domains in order. A domain
whose cached address in `internal.json` already equals the public address is
skipped without asking the provider. For every other domain the program asks
Cloudflare for the zone, takes the zone's first type-A record, and PATCHes that
record to the public address unless it already holds it (a self-heal). Every
failure is caught per domain. The run then saves the new cache, adds an entry to
`updates.json` only when some record was really changed, and overwrites
`last-run.json` with one log entry per domain.

Modules:

- `Wrappers` — `Option` and `Result`.
- `Http` — what `sendRequest` contributes: `response.ok` and the
  `Response status: <n>` error message, with a parser that proves the status can
  be read back from the message.
- `Cloudflare` — the provider's record store as a value (`Remote`): the zone
  query, the type-A record query, and the effect of a PATCH.
- `Reconciler` — `updateDomain` as a pure function. It returns the result or the
  thrown message, the requests it sent and the provider's state afterwards
  (`Attempt`).
- `Orchestrator` — `checkUpdate`: the loop guard, one iteration (`HandleDomain`),
  the loop as a method (`ReconcileDomains`) proved against its specification
  `Run`, the history merge, and a `Storage` class for the three JSON files with
  `CheckUpdate` as the whole run.
- `RunProperties` — lemmas about whole runs, and a worked two-domain example.

Behaviour of the program worth noting:

- The record that gets patched is the first type-A record of the *zone*. The
  query is not filtered by the domain's name.
- The two GET requests go through `sendRequest` too. A non-OK status on either
  fails the domain with `Response status: <n>`, like a failed PATCH.
- A domain that fails and had no cache entry before stays absent from the saved
  cache. So not every configured domain has an entry after a run.
- `updates.json` is rewritten on every run that gets past the public-address lookup, even when no entry is added.

## Model

| member | source | states |
|---|---|---|
| `Http.OkIsSuccessClass` | index.js:137 | `response.ok` (`IsOk`) holds exactly for the 2xx statuses |
| `Http.NatToDecimal` | index.js:138 | the status text is a non-empty string of decimal digits with no leading zero |
| `Http.DecimalRoundTrip` | index.js:138 | reading the decimal text back gives the status |
| `Http.StatusMessage` | index.js:137-139 | the error for a non-OK response is `Response status: ` followed by a non-empty string of decimal digits |
| `Http.StatusMessageRoundTrip` | index.js:137-139 | the status can be recovered from the `Response status: <n>` message |
| `Http.StatusMessageInjective` | index.js:137-139 | two statuses give the same message exactly when they are equal |
| `Cloudflare.SetContent` | index.js:118 | a PATCH with body `{content}` sets the content of the records with that id, keeps every id and every other record's content, and keeps the order |
| `Cloudflare.Patched` | index.js:118 | a successful PATCH changes only the type-A records of the patched zone, as SetContent says; the zones are unchanged |
| `Cloudflare.PatchKeepsPointsTo` | index.js:118 | a PATCH that writes an address never moves a domain that already points at that address |
| `Reconciler.UpdateDomain` | index.js:96-126 | zone query first, at most three requests; the A-record query of the zone found is sent exactly when the zone query succeeded and found a zone; nothing sent after a failed one, a third request is always the PATCH and only the last request can be one; success exactly when every request was OK and the zone and its first A record exist; success reports the record's old content and the new address, and `updated` holds exactly when they differ; the PATCH targets that zone and record, writes the address, and is sent exactly when both queries succeeded and the content differs; the error is the failed status's message, else `Domain not found in Cloudflare`, else `Type "A" DNS record not found`; the provider changes only on a successful PATCH, and then exactly as `Patched` gives for that zone and record, so nothing else changes; after a success the domain points at the address |
| `Reconciler.DomainLog.Message` | index.js:46-60 | a log entry carries a `message` exactly when it is not `updateDomain`'s result: a failure carries the thrown message, a skipped domain `No attempt to change IP address because it has not changed` |
| `Reconciler.UpdateDomainKeepsPointsTo` | index.js:116-125 | whatever `updateDomain` does, a domain already pointing at the address keeps pointing at it |
| `Reconciler.ErrorMessagesDistinct` | index.js:98-139 | the three kinds of thrown message never coincide, so a failure's message says which check failed |
| `Reconciler.ProviderErrorNonEmpty` | index.js:46-52 | every message `updateDomain` can throw is non-empty, so a failed entry always carries a message |
| `Orchestrator.PublicIpAddress` | index.js:77-85 | the lookup succeeds exactly when its output is non-empty, and then yields that output; otherwise it fails with `No Public IP Address found` |
| `Orchestrator.NeedsAttempt` | index.js:36-38 | for a non-empty public address, the loop calls the provider exactly when the cache has no entry for the domain or the entry's `ipAddress` differs from the public address |
| `Orchestrator.CarryForward` | index.js:47-55 | `newInternal[d] = internal[d]`: the entry for `d` becomes the prior one, or is absent when there was none; every other entry is untouched |
| `Orchestrator.HandleDomain` | index.js:36-61 | one loop iteration: its entry names the domain; no request is sent, and the entry is the not-changed one, exactly when the cache already holds the address; a skipped domain leaves the provider alone; an attempted domain sends exactly `updateDomain`'s requests and leaves the provider as it does, its entry is a failure exactly when `updateDomain` throws and then carries the thrown message, and otherwise is `updateDomain`'s result; an attempt starts with the zone query; a failure leaves the provider alone; a reconciled entry reports the record's old content and the public address, is an update exactly when they differ, and leaves the domain pointing at the address; a self-heal sends no PATCH and changes nothing remotely; every PATCH writes the public address |
| `Orchestrator.HandleDomainKeepsPointsTo` | index.js:39-45 | handling one domain never moves another domain that already points at the public address |
| `Orchestrator.Outcomes` | index.js:35-62 | the loop handles each configured domain exactly once |
| `Orchestrator.NextCache` | index.js:41-55 | after an iteration the cache entry for the domain follows its log entry: the public address when reconciled, otherwise the prior entry or none; every other entry is untouched |
| `Orchestrator.UpdatesIn` | index.js:42-44 | the update list keeps only entries with `updated: true` and keeps every such entry of the log |
| `Orchestrator.UpdatesInAppend` | index.js:42-44 | the update list of a log split in two is the first part's followed by the second part's: pushing keeps log order |
| `Orchestrator.UpdatesInSingle` | index.js:42-44 | one entry is pushed exactly when its `updated` is true |
| `Orchestrator.UpdateIndices` | index.js:42-44 | the positions of the log's updated entries, strictly increasing, each such position exactly once |
| `Orchestrator.UpdatesInAtIndices` | index.js:42-44 | the update list is the log's subsequence at exactly those positions: same order, each updated entry once |
| `Orchestrator.RunStep` | index.js:35-62 | one more domain extends the cache, update list, log and requests by exactly that domain's iteration, run against the provider as the earlier domains left it |
| `Orchestrator.ReconcileDomains` | index.js:32-62 | the loop's `newInternal`, `domainUpdates`, `log.domainLogs`, requests sent and final provider state are those of the specification `Run` |
| `Orchestrator.LoadJson` | index.js:87-94 | a missing file reads as the empty object; an existing one gives exactly its keys and values |
| `Orchestrator.MergeHistory` | index.js:66-70 | the history gains the run's time exactly when the update list is non-empty, and then maps it to that list; every other entry is unchanged; with no updates the history is unchanged |
| `Orchestrator.Storage.CheckUpdate` | index.js:20-75 | with no public address only `last-run.json` is written, with the error message and no entries, and the provider is untouched; otherwise `internal.json` gets the loop's cache, `updates.json` the merged history, and `last-run.json` the time, address and every domain's entry |
| `RunProperties.OutcomesPrefix` | index.js:35-62 | handling a prefix of the domains gives a prefix of the outcomes: later domains never revisit earlier ones |
| `RunProperties.OutcomeAt` | index.js:35-62 | the outcome for domain `k` is one iteration for that domain, against the provider as domains `0..k-1` left it |
| `RunProperties.RunEntryAt` | index.js:35-62 | log entry `k` and the requests for domain `k` are exactly that iteration's |
| `RunProperties.RunLogOrder` | index.js:35-62 | one log entry per configured domain, in configuration order; no request, and the not-changed entry with its message, exactly for domains whose cache already holds the address; every other domain starts with its zone query |
| `RunProperties.RunLogOutcomes` | index.js:39-53 | each failure entry carries a non-empty message `updateDomain` throws, and the loop goes on to the next domain; each reconciled entry has the public address as new address and is an update exactly when the old one differs |
| `RunProperties.RunFailures` | index.js:39-53 | an attempted domain's entry is a failure exactly when `updateDomain`, against the provider as the earlier domains left it, throws, and then carries the thrown message |
| `RunProperties.RunWritesOnlyPublicIp` | index.js:118 | every PATCH a run sends writes the public address |
| `RunProperties.CacheFollowsLogs` | index.js:32-62 | the new cache holds only configured domains; each domain's last entry decides: the public address when reconciled, else exactly the prior entry or none |
| `RunProperties.RunNewInternal` | index.js:32-64 | the same for the cache a run saves |
| `RunProperties.ReconciledPointsTo` | index.js:35-62 | after the loop every reconciled domain points at the public address, even when a later domain shares its zone |
| `RunProperties.RunReconciledPointsTo` | index.js:35-62 | the same for the provider state a run leaves |
| `RunProperties.RunUpdateOrder` | index.js:35-44 | a run's `domainUpdates` is the subsequence of its log at exactly the updated domains' positions, in configuration order, each once, and each names its domain |
| `RunProperties.UpdatesOfLog` | index.js:39-44 | when every reconciled entry moves to the public address, the update list is non-empty exactly when some entry is an update, and holds only real changes to that address |
| `RunProperties.RunHistory` | index.js:66-70 | a run's history entry is added exactly when some domain was really updated; it holds only real changes to the public address; all other entries stay |
| `RunProperties.ExampleFirstDomain` | index.js:96-125 | example: an A record holding 1.1.1.1 is patched to 2.2.2.2 with three requests |
| `RunProperties.ExampleSecondDomain` | index.js:107-115 | example: an A record already holding 2.2.2.2 is self-healed with two requests and no PATCH |
| `RunProperties.ExampleOutcomes` | index.js:35-62 | example: over both domains, an update and then a self-heal against the patched provider |
| `RunProperties.ExampleRun` | index.js:35-62 | example: both entries are logged, only the first goes to the update list, and both domains are cached at 2.2.2.2 |

## Left out

- The public-address lookup (`dig` via `execSync`, index.js:78): its trimmed output is an input of `CheckUpdate`. Only the empty-output check is modelled.
- File I/O and JSON (`loadJson`, `saveJson`): each file is an `Option` field of `Storage`. A missing file reads as an empty map, and a save replaces the whole value. Read, write and parse errors are not modelled. Entries of `internal.json` other than `ipAddress`, and an `ipAddress` that is not a string, are not modelled.
- HTTP: URL building, the bearer token and body serialisation are not modelled. The status each request gets is an input function, so within one run the same request always gets the same status: a domain listed twice cannot have one visit's query fail and the other's succeed. A rejected `fetch` (network error), a body that is not JSON, and a response without `result` are not modelled. A failed PATCH is assumed to leave the provider unchanged. A successful PATCH is assumed to keep every record's position in the zone's type-A listing, which `ReconciledPointsTo` relies on when a later domain shares the zone.
- `async`/`await`: modelled as sequential calls.
- Process-level error handling (index.js:14, 148-153): only the fatal path for an empty public address is modelled, as `CheckUpdate` writing only the run log. A missing `config.json`, whose `domains` field then cannot be iterated, is not modelled, and neither is the exit status.
- `console.log` output is not modelled.
- `currentTime` (`new Date().toLocaleString()`) is an opaque string input.
