# morgoth metric metadata, modelled in Dafny

morgoth keeps, for every metric it ingests, a small summary — the least
and greatest value seen and the number of values — in memory (`Meta._meta`),
and synchronises it lazily with the `meta` collection of its MongoDB
database. This project models that synchronisation logic of the `Meta`
class in `src/morgoth/meta.py`:

- `update` creates the record of an unseen metric (version 0, one value) and
  writes it at once; for a known metric it folds the value into the bounds
  and the count and marks the metric pending (`_needs_updating`) unless it
  already is, spawning `_update_eventually`;
- `_update` clears the pending mark, reads the stored document, inserts the
  record when there is none or otherwise merges (stored version, lower
  minimum, higher maximum, higher count), and writes with a
  compare-and-swap guarded by `_id` and `version` that sets the fields and
  increments the stored version, retrying until it matches;
- `finish` (once) and `flush` drain the pending set through `_update`;
- `delete_metric` removes the metric's stored documents and leaves the
  in-memory record and the pending mark;
- `_match_metric` picks the first configured pattern that matches.

Files:

- `records.dfy` (`MetaRecords`): the record shared by memory and store, the
  fold of one value (`Observe`), the merge with a stored document
  (`Merge`), and lemmas about sequences of observations and successive
  writers.
- `store.dfy` (`MetaStore`): the `meta` collection as a class over a map,
  with `find_one`, `insert`, the conditional `update` and `remove`.
- `meta.dfy` (`MorgothMeta`): class `Meta` with the fields `meta`,
  `needsUpdating`, `finishing`, the manager table and the collection; its
  invariant `Valid()` says each record is keyed by its own `_id`, has
  `min <= max` and a count of at least one, and every pending metric has a
  record.
- `scenarios.dfy` (`MetaScenarios`): clients that use only the contracts of
  `Meta`, including two `Meta` objects sharing one collection.
- `wrappers.dfy`: `Option`.

Access is sequential: in this model the conditional write provably matches
on the first pass of the retry loop, which gives that loop its termination
measure. `re.match` is the constant `Meta.matches`, a function supplied at
construction. Metric values are `real`: the code only compares them.

Behaviour of the code worth noting, which the model reproduces:

- `_update_eventually` sleeps and returns; it never calls `_update`. A
  pending metric therefore stays pending, and its stored document stale,
  until `flush` or `finish` (`DeferredUpdateScenario`).
- `_update` never writes the incremented version back into memory: after a
  write the in-memory version is one behind the stored one, and the next
  write adopts the stored version on merge. Since the first value of a new
  metric is written at once (version 1), `cpu.load` observed with 10, 50, 5
  and flushed is stored at version 2, and after 60 and a second flush at
  version 3 (`CpuLoadScenario`).
- `delete_metric` keeps the in-memory record and the pending mark; the next
  write of that metric inserts the in-memory record again
  (`DeleteThenFlushScenario`).
- An `insert` that finds the `_id` taken is not retried (pymongo raises);
  in the model `Insert` reports it, and `_update` only inserts after
  reading no document.
- Merging keeps the larger count, so two writers' counts are not added
  (`TwoWritersScenario`, `TwoWritersCommit`).

## Model

| member | source | states |
|---|---|---|
| `MetaRecords.NewMeta` | src/morgoth/meta.py:84-91 | the record of an unseen metric is well formed (`min <= max`, count at least one) and carries the metric's name |
| `MetaRecords.Observe` | src/morgoth/meta.py:95-100 | folding a value in keeps `_id` and version, adds one to the count, leaves bounds that enclose the value, never raises the minimum or lowers the maximum, each bound being the old one or the value, and keeps `min <= max` |
| `MetaRecords.Merge` | src/morgoth/meta.py:150-156 | the merged record takes the stored version; its minimum is the lesser and its maximum the greater of local and stored, its count the greater of the two counts; `min <= max` is kept |
| `MetaRecords.ObserveAllBounds` | src/morgoth/meta.py:95-100 | after any sequence of `update` calls on a known metric: count grows by the number of values, every value lies within the bounds, each bound is the old one or one of the values, identity and version are unchanged |
| `MetaRecords.SummaryOfObservations` | src/morgoth/meta.py:84-100 | a metric first seen with `values[0]` and then with the rest has as bounds the least and greatest of the values, and as count their number |
| `MetaRecords.TwoWritersCommit` | src/morgoth/meta.py:150-170 | two writers committing in turn over a stored document leave the extremes of all three records, the largest count, and the version two higher |
| `MetaStore.MetaCollection.FindOne` | src/morgoth/meta.py:147 | returns the stored document with that `_id`, or nothing when there is none |
| `MetaStore.MetaCollection.Insert` | src/morgoth/meta.py:182 | stores the document under its `_id` when that key is free, and otherwise writes nothing and reports it |
| `MetaStore.MetaCollection.Update` | src/morgoth/meta.py:158-170 | the conditional write succeeds exactly when a document with that `_id` and that `version` is stored; then it sets min, max and count and the version plus one, and no other document changes; otherwise nothing changes |
| `MetaStore.MetaCollection.Remove` | src/morgoth/meta.py:210 | removes the document with that `_id` and nothing else |
| `MorgothMeta.Meta.constructor` | src/morgoth/meta.py:35-42 | starts with no records, nothing pending and not finishing |
| `MorgothMeta.Meta.Update` | src/morgoth/meta.py:75-106 | while finishing nothing changes; an unseen metric gets a fresh record that is written at once and not marked pending, and when nothing was stored the store then holds it with version 1; a known metric folds the value in, becomes pending (the pending set is unchanged if it already was) and the store is untouched; `Valid()` is kept |
| `MorgothMeta.Meta.Finish` | src/morgoth/meta.py:109-118 | sets `finishing`; the first call leaves nothing pending, each pending metric reconciled with what was stored and stored as committed, every other record and document unchanged; a second call changes nothing |
| `MorgothMeta.Meta.Flush` | src/morgoth/meta.py:122-129 | leaves nothing pending, with the same effect on records and documents as the first `finish`, and leaves `finishing` as it was |
| `MorgothMeta.Meta.UpdateEventually` | src/morgoth/meta.py:131-134 | the spawned task changes no state: it does not sync |
| `MorgothMeta.Meta.PerformUpdate` | src/morgoth/meta.py:136-172 | removes the metric from the pending set; the record becomes itself (nothing stored) or its merge with the stored document; the store then holds that record with the version plus one and no other document changes; the stored version rises by exactly one, the stored minimum never rises, the maximum and count never fall; the retry loop ends after one pass |
| `MorgothMeta.Meta.InitNewMetric` | src/morgoth/meta.py:174-182 | inserts the record as the metric's document exactly when none was stored |
| `MorgothMeta.Meta.MatchMetric` | src/morgoth/meta.py:189-203 | returns the manager of the first pattern that matches the metric, falling back to the null manager when no pattern matches; when every entry of the table is a configured `MetricManager` (as the table is built at meta.py:64), the null manager is returned exactly when no pattern matches |
| `MorgothMeta.Meta.DeleteMetric` | src/morgoth/meta.py:205-210 | removes the metric's document from the `meta` collection and leaves `_meta`, `_needs_updating` and `_finishing` unchanged |
| `MetaScenarios.CpuLoadScenario` | src/morgoth/meta.py:75-129 | `cpu.load` with 10, 50, 5 then a flush stores `{version 2, min 5, max 50, count 3}`; then 60 and a flush store `{version 3, min 5, max 60, count 4}` |
| `MetaScenarios.ObserveThenFlush` | src/morgoth/meta.py:75-129 | for any non-empty sequence of values on a new metric followed by a flush, the store holds the least and greatest value and their number, at version 1 for one value and 2 otherwise |
| `MetaScenarios.TwoWritersScenario` | src/morgoth/meta.py:136-170 | two `Meta` objects sharing the collection: the final document covers both writers' extremes and holds the larger count, at version 3 |
| `MetaScenarios.ShutdownScenario` | src/morgoth/meta.py:75-118 | `finish` writes the pending metric; a later `update` and a second `finish` change nothing |
| `MetaScenarios.DeferredUpdateScenario` | src/morgoth/meta.py:95-134 | after repeated updates and the spawned task, the metric is still pending and the store still holds only the first value |
| `MetaScenarios.DeleteThenFlushScenario` | src/morgoth/meta.py:205-210 | after `delete_metric` the document is gone; the next flush inserts the surviving in-memory record under its in-memory version |

## Left out

- `Meta.load` (src/morgoth/meta.py:46-72): reading the configuration and preloading `_meta` from the database is bootstrap I/O; the constructor starts from the class-level initial state instead, with the manager table given.
- MorgothMeta.Meta.InitNewMetric: models the insert only; the calls to `MetricManager.add_metric` and `start` (src/morgoth/meta.py:184-187) are side effects in code outside this model.
- MorgothMeta.Meta.DeleteMetric: covers the `meta` collection only; the `metrics` and `windows` collections it also clears (src/morgoth/meta.py:208-209) are not part of this model.
- gevent: `gevent.spawn` and `gevent.sleep` are concurrency and timing; the spawned task is called in place, which has the same (empty) effect.
- The failing branch of the retry loop in `_update` and its error log (src/morgoth/meta.py:171-172): reachable only when another writer changes the document between the read and the write, which a sequential model cannot interleave; the model proves the loop exits after one pass. Writers do interleave between whole calls (`TwoWritersScenario`).
- `re.match`: a foreign regex library, replaced by the function `Meta.matches`; the dictionary order of `_managers` is taken as the order of a sequence.
- Store errors (unreachable database, exceptions from pymongo), logging, and float semantics (NaN, infinities) of metric values.
- Which pending metric `finish` and `flush` take first: the model picks any one; the final state does not depend on the order.
