# Safe-monitoring dashboard: event fusion model

This project models the event-fusion core of a dashboard that monitors a
safe ("brankas"). The safe has a distance sensor, a PIR motion sensor, a
camera, a microphone and face and voice classifiers. Bus messages arrive on
an inbound queue. The dashboard's merge step drains that queue and folds the
messages into a table of safe-status rows. It also keeps two prediction logs
and the latest photo and audio links. Each row then gets a combined verdict
from an ordered rule cascade.

Modules:

- `Telemetry` (Telemetry.dfy): the bus topics, rows, log entries, queued
  messages, the `Float` values that Python's `float()` produces (finite,
  infinite or NaN), and Python's substring test `Contains`.
- `Verdict` (Verdict.dfy): `generate_final_prediction` as `Classify`. It is
  checked against a reference definition: a table of six rules, where the
  first rule that fires (`FirstFiring`) decides the label.
- `Fusion` (Fusion.dfy): the merge step on values. `Apply` handles one
  message, `Merge` handles a batch in arrival order, `Relabel` recomputes
  the verdict column and `Process` is the whole step. The lemmas state
  what a batch does.
- `Dashboard` (Dashboard.dfy): the session state as a class. Its fields
  are the queue, the table, the logs and the links. `ProcessQueue` drains
  the queue and updates the fields message by message in a loop. Its
  postcondition ties the new state to `Fusion.Process` of the old state and
  queue.

What `dashboard.py` does, and the model with it:

- the verdict cascade has six rules (forced open, suspicious, opened
  legitimately, near distance, motion, safe) and no "pending" rule; the
  "Menunggu..." placeholder simply fails every label test;
- a status payload is stored verbatim as the row's status;
- a photo or audio link message only replaces the stored link, with a
  `?t=<seconds>` suffix; nothing is fetched;
- link messages are dropped like every other non-status message while the
  table is empty.

The number parsers `float()` and `int()` are parameters of the model (the
`Parsers` value): each maps a payload to a number, or to None for
ValueError. The wall-clock second used in the cache-busting suffix is the
parameter `now`.

## Model

| member | source | states |
|---|---|---|
| `Telemetry.Contains` | dashboard.py:66 | Python's `sub in s` holds exactly when `sub` occurs in `s` at some position |
| `Verdict.FirstFiring` | dashboard.py:66-77 | the rule it picks fires, and no earlier rule in the cascade does; the last rule always fires |
| `Verdict.Classify` | dashboard.py:59-77 | the verdict is the label of the first rule in the cascade that fires on the row |
| `Verdict.VerdictIff` | dashboard.py:66-77 | a row gets rule k's label if and only if rule k fires and no earlier rule fires |
| `Verdict.ClassifyIgnoresBookkeeping` | dashboard.py:59-64 | the verdict depends on status, distance, PIR, face and voice only, not on the timestamp or the old label |
| `Verdict.ForcedOpenOverrides` | dashboard.py:66-67 | a status containing "Brangkas Dibuka Paksa" yields "⚠ Dibobol!" whatever the other fields hold |
| `Verdict.SuspectBeatsOpeningAndSensors` | dashboard.py:68-76 | when the status says opened safely or a sensor rule would fire, a face "Unknown"/"OTHER_FACES" or voice "Not_User" still yields "Mencurigakan!" (unless forced open) |
| `Verdict.NearBeatsMotion` | dashboard.py:73-76 | when the first three rules do not fire, a distance in (0, 25) wins over PIR == 1 |
| `Verdict.AbsentReadingsNeverFire` | dashboard.py:73-76 | a NaN distance never yields the near-distance verdict and an absent PIR never the motion verdict, each on its own whatever the other reading holds |
| `Verdict.NoReadingsSafeIff` | dashboard.py:66-77 | with both readings absent the verdict is "Aman" exactly when neither status rule nor the suspicious-prediction rule fires |
| `Verdict.DefaultIsSafe` | dashboard.py:77 | the verdict is "✅ Aman" if and only if none of the first five rules fires |
| `Verdict.WaitingIsNotSuspect` | dashboard.py:155-156 | the "Menunggu..." placeholder does not trip the suspicious-prediction rule |
| `Fusion.Initial` | dashboard.py:38-50 | a fresh session has an empty table, empty logs and no audio link |
| `Fusion.Decimal` | dashboard.py:194 | `str()` of a non-negative integer: digits whose value is `n`, with no leading zero |
| `Fusion.CacheBusted` | dashboard.py:194 | a stored link is the payload, then "?t=", then the decimal digits (no leading zero) whose value is the clock's seconds |
| `Fusion.Apply` | dashboard.py:144-199 | a status message always sets the flag; any other message on an empty table changes nothing and leaves the flag clear |
| `Fusion.Relabel` | dashboard.py:201-205 | every row of the result carries its own verdict, and each row's other fields are unchanged |
| `Fusion.StatusAppendsOneRow` | dashboard.py:149-163 | a status message appends exactly one row and changes nothing else: payload as status, readings NaN, both predictions "Menunggu...", flag set |
| `Fusion.OpenedRowVerdict` | dashboard.py:150-158 | a newly opened row is "Dibobol!", "Sah & Aman" or "Aman", decided by its status alone |
| `Fusion.OtherTouchesOnlyLastRow` | dashboard.py:165-191 | a non-status message keeps the row count and every row but the last |
| `Fusion.ReadingUpdate` | dashboard.py:169-178 | an unparseable distance or PIR payload changes nothing and leaves the flag clear; a parseable one overwrites that field of the last row and sets the flag; the logs and links never change |
| `Fusion.PredictionUpdate` | dashboard.py:181-191 | a face (voice) result sets the last row's face (voice) and appends one "Success"/"MQTT Live Result" entry to that log only; the links stay as they were |
| `Fusion.LinkUpdate` | dashboard.py:193-199 | a photo (audio) link on a non-empty table replaces that link with the cache-busted payload and touches nothing else |
| `Fusion.Merge` | dashboard.py:143-199 | a batch applied message by message in arrival order never shrinks the table and only ever extends the two logs; an empty batch changes nothing |
| `Fusion.MergeAppendsOnly` | dashboard.py:143-199 | a batch grows the table by exactly its number of status messages and leaves every row before the old last row unchanged |
| `Fusion.MergeDropsWithoutTable` | dashboard.py:165-199 | on an empty table a batch without status messages changes nothing at all and leaves the flag clear |
| `Fusion.MergeConcat` | dashboard.py:138-146 | merging a batch is merging its prefix, then the rest, in arrival order; each message is used exactly once |
| `Fusion.ApplyIgnoresVerdicts` | dashboard.py:144-199 | a message treats two states that differ only in verdicts alike, and sets the same flag |
| `Fusion.MergeIgnoresVerdicts` | dashboard.py:143-199 | the same for a whole batch |
| `Fusion.RelabelIgnoresVerdicts` | dashboard.py:203-205 | the recomputed verdict column does not depend on the previous verdicts |
| `Fusion.Process` | dashboard.py:134-207 | an empty queue leaves the state unchanged with the flag clear; after a non-empty batch every row carries its own verdict; the table never shrinks and the logs are only extended |
| `Fusion.RelabelIdempotent` | dashboard.py:201-205 | recomputing verdicts of a labelled table changes nothing, so the recomputation is idempotent |
| `Fusion.ProcessSplit` | dashboard.py:134-207 | for any two batches, handling one and then the other gives the same state and flag as handling their concatenation at once |
| `Dashboard.SessionState.constructor` | dashboard.py:35-50 | a new session has an empty queue, the initial state and a labelled (empty) table |
| `Dashboard.SessionState.Enqueue` | dashboard.py:99-103 | a received message is appended to the end of the queue |
| `Dashboard.SessionState.ProcessQueue` | dashboard.py:134-207 | the queue is left empty; the new state and the returned flag are those of `Process` on the old state and the whole old queue, in order; every row stays labelled |

## Left out

- MQTT client setup, connection and subscription (dashboard.py:83-129): network plumbing.
- The bus callback's thread and its payload handling (dashboard.py:95-105):
  UTF-8 decoding, whitespace stripping and timestamp formatting are not
  modelled. `Enqueue` takes an already decoded message, and concurrent
  enqueueing during a drain is not modelled.
- Dashboard.SessionState.ProcessQueue: returns false on an empty queue,
  where the source returns None. Both are falsy to the one caller.
- Dashboard.SessionState.ProcessQueue: takes one `now` for the whole batch.
  The source reads the clock once per link message, so two link messages in
  the same batch might get different suffixes.
- `float()` and `int()` are parameters rather than parsers. The model does
  not fix which strings they accept. It also does not model how pandas
  stores the parsed value; a PIR integer too large for a float column is
  one such case.
- The Streamlit page (dashboard.py:213-300): chart, photo, buttons that
  publish commands, tabs and CSV download.
- The rerun schedule driven by `time.time()` (dashboard.py:308-314).
- web_server.py (media download, classifier calls, publishing results):
  I/O and foreign model calls. web_server.py is not part of this model.
