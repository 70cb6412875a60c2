# dynaflare, modelled in Dafny

dynaflare keeps Cloudflare DNS "A" records pointed at the machine's public IP. At startup
it lists the zone's "A" records, looks up the public IP, and scans the listing against the
configured record names: for each remote record whose name equals a configured name it keeps
the record's id and name, and queues a patch to the current IP when the record's address
differs. A second pass looks each configured name up among the matched names. When a non-zero
interval is configured, it then loops: sleep, look up the public IP again, and remember it when it changed.

This model covers that logic in `src/main.rs`:

- `remote.dfy` (module `Remote`): the two lookups `public_ip` and `dns_records` as functions of an
  abstract HTTP reply, the classification of failed record listings by status code, and the
  request URLs.
- `reconcile.dfy` (module `Reconcile`): the startup scan as a loop (`ScanRecords`) proved against a
  fold over the remote records (`ScanOf`), the second pass (`CheckDesired`), Rust's `iter().find`
  (`FindName`), and lemmas that characterise the scan through an independent, order-preserving
  filter (`Matched`).
- `dynaflare.dfy` (module `Dynaflare`): the startup sequence of `main` (`Startup`), the watch loop's
  state as a class (`Watcher`, whose `Step` is one pass of the loop), and a fold of passes over a
  finite run of lookups (`Watch`) with lemmas about it.
- `types.dfy`, `configuration.dfy`, `errors.dfy`, `wrappers.dfy`: the records of `src/types.rs`, the
  configuration record, the `anyhow` error chain with its context labels, Option and Result.

The code of `src/main.rs` does not compile as written; the model follows its evident intent:
line 48 pushes onto `update_batch`, taken to be the `record_updates` vector of line 39, and line 28
reads `configuration.zone`, taken to be the `zone_id` field of `src/configuration.rs:19`.

The code stops short of a complete updater, and the model follows the code:
- it never creates a record: the second pass has an empty body, so nothing is queued for creation;
- it never sends a batch write: `dns_batch` is an empty stub that is never called, so the queued patches stay in memory, and the watch loop only reassigns `last_ip`;
- a failed IP lookup inside the watch loop ends the process with an error; it is not retried;
- it has no suppression of repeated errors.

`ReapplyingIsQuiet` states what the queued patches would achieve if the store applied them. The store is modelled as setting the address of every record with a patched id.

## Model

| member | source | states |
|---|---|---|
| `Remote.RecordsUrlInjective` | src/main.rs:28-34 | the records listing URL determines the zone id it was built from |
| `Remote.Classify` | src/main.rs:92-98 | a 404 status, and only it, gets the context "Invalid zone"; a 400 status, and only it, gets "Invalid API token"; every other status and every transport error gets no context; the request error stays at the root of the chain |
| `Remote.DnsRecords` | src/main.rs:85-104 | the listing succeeds exactly when the reply decodes, with the decoded records; a failed request yields its classified error; an undecodable body yields the "Unexpected Cloudflare API response" context over a decoding error |
| `Remote.PublicIp` | src/main.rs:73-83 | the lookup succeeds exactly when the reply decodes, with the decoded IP; a failed request is passed on with no context; an undecodable body yields the "Unexpected ipify API response" context |
| `Reconcile.ScanOf` | src/main.rs:42-51 | the matched ids and names grow together, never beyond the number of remote records, and there are never more queued patches than matched ids |
| `Reconcile.FindName` | src/main.rs:43 | finds a name exactly (case-sensitively) equal to the one sought, and finds one exactly when it is present |
| `Reconcile.ScanRecords` | src/main.rs:38-51 | the loop over the remote records leaves ids, names and patches equal to the scan `ScanOf` |
| `Reconcile.CheckDesired` | src/main.rs:53-55 | the second pass changes nothing: the list of records to create stays empty |
| `Reconcile.Matched` | src/main.rs:42-46 | every matched record is a remote record whose name is a desired name |
| `Reconcile.MatchedKeepsEachOccurrence` | src/main.rs:42-46 | every occurrence of a remote record with a desired name is matched, duplicates included, and no other record is |
| `Reconcile.MatchedKeepsOrder` | src/main.rs:42-46 | matched records keep the remote scan order |
| `Reconcile.ScanAligned` | src/main.rs:43-45 | entry k of the kept ids and entry k of the kept names are the id and the name of the same (k-th matched) remote record |
| `Reconcile.UpdatesExactlyForStale` | src/main.rs:47-49 | the queued patches are exactly one patch to the current IP per matched record whose address differs, in remote scan order (the filter `Stale`); so every patch comes from such a record, carries the current IP, and names a kept id |
| `Reconcile.ConvergedQueuesNothing` | src/main.rs:47-49 | when every matched record already holds the current IP, no patch is queued |
| `Reconcile.ExistingIffRemote` | src/main.rs:53-55 | a name is found among the matched names exactly when it is desired and some remote record carries it |
| `Reconcile.ApplyPatchesEffect` | src/types.rs:20-25 | patches carrying one address keep every record's id and name, set each patched record to that address, and leave every record that no patch names unchanged |
| `Reconcile.ScanIgnoresAddressesForIds` | src/main.rs:42-46 | the kept ids and names depend only on the ids and names of the remote records, not on their addresses |
| `Reconcile.ReapplyingIsQuiet` | src/main.rs:47-49 | after the queued patches are applied, scanning again with the same IP keeps the same ids and names and queues no patch |
| `Dynaflare.Interval` | src/main.rs:25 | an absent interval is zero; a configured one is used as it is |
| `Dynaflare.Startup` | src/main.rs:22-56 | with no configured names nothing is requested and the run ends cleanly; otherwise the records are listed first, and a failed listing ends the run with "DNS records retrieval" before the IP is looked up; a failed IP lookup ends it with "Public IP retrieval"; otherwise the result is the scan of the listing against the names with that IP, no record to create, and the configured interval |
| `Dynaflare.Iterate` | src/main.rs:61-65 | a pass ends the run exactly when the IP lookup fails, with "Public IP retrieval" on top of its error; otherwise the last IP afterwards is the fetched one, and it is reassigned exactly when it differs |
| `Dynaflare.Watcher.constructor` | src/main.rs:58 | the watch loop is entered only with a non-zero interval, starting from the startup IP |
| `Dynaflare.Watcher.Step` | src/main.rs:59-65 | one pass changes only the last IP, as `Iterate` says; an equal IP leaves it unchanged and a failed lookup leaves it unchanged |
| `Dynaflare.WatchEndsAtFirstFailure` | src/main.rs:59-61 | the loop ends exactly when some IP lookup fails, at the first failing one, with "Public IP retrieval" on top of its error; there is no other exit |
| `Dynaflare.WatchTracksLatestIp` | src/main.rs:61-65 | while watching, the last IP is the IP of the latest lookup and reassignments never outnumber passes |
| `Dynaflare.WatchCountsChanges` | src/main.rs:61-65 | while every lookup succeeds, the loop ends up holding the latest IP and has reassigned it once for each IP that differs from the one before it |
| `Dynaflare.SteadyIpNeverReassigns` | src/main.rs:63-65 | lookups that keep returning the last IP never reassign it |
| `Dynaflare.OneChangeOneReassignment` | src/main.rs:59-65 | lookups ip0, ip0, ip1, ip1, ip1 from ip0 reassign once and leave ip1 |

## Left out

- Sleeping between passes (src/main.rs:60): timing is not modelled; a pass of the loop is one call of `Watcher.Step`.
- The unbounded `loop` (src/main.rs:59): the model states one pass (`Watcher.Step`) and folds passes over finite runs of lookups (`Watch`); non-termination itself is not modelled.
- HTTP transport and JSON decoding through `ureq` (src/main.rs:73-104): the reply of each request is an input, either the client's error or a body that did or did not decode.
- `dns_batch` (src/main.rs:106-108): an empty stub that is never called; the `Batch` type is transcribed but never built.
- Configuration loading from TOML and the "Bearer " prefix of the token (src/configuration.rs:25-31): file I/O; the token is taken as already prefixed.
- Human-readable duration parsing (src/utils/duration_human.rs): a wrapper over an external crate; durations are whole nanoseconds.
- Logger set-up and the `warn!`/`debug!` messages (src/utils/logging.rs, src/main.rs:23, 74, 86): output only; the warning for an empty name list is the `NothingToDo` outcome.
- The `log_level` field and the unused `group_errors` flag (src/configuration.rs:21-22): they change no behaviour of the modelled code.
- Constants of src/constants.rs other than those the requests use: `DEFAULT_TTL`, the content-type header and the version are not used by the modelled code.
- Status codes are unbounded naturals rather than 16-bit values: the classification depends only on equality with 400 and 404.
