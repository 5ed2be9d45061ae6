# Map change monitor: a verified model

The map change monitor polls a database for queued level (map) change
requests for a fleet of game-server instances. For each queued
`next_wipe_info` row it:

1. looks up the instance folder in `server_backend_info`;
2. rewrites the `Rust.LevelUrl=` line of that instance's `RustModule.kvp`;
3. re-reads the file and checks that the new value is there;
4. restarts the instance;
5. clears the row's `is_queued` flag.

An in-progress flag keeps two poll cycles from overlapping.

This project models that core in Dafny and proves what it promises. It has two modules:

- `LevelUrlPatch` (`level_url_patch.dfy`) models the config-line patch as functions on strings:
  - `FirstMatch` is the search of the multiline regex `^Rust\.LevelUrl=.*`. A match starts at position 0 or after one of the four JavaScript line terminators `\n`, `\r`, U+2028, U+2029.
  - `LineEnd` is where the greedy `.*` stops.
  - `Expand` is the JavaScript replacement-string expansion: `$$`, `$&`, `` $` `` and `$'` are interpreted; every other `$` is literal because the regex has no groups.
  - `Patch` is the non-global `String.prototype.replace`.
  - `Contains` and `Verified` are the `includes` test made after re-reading the file.
- `MapChangeMonitor` (`map_change_monitor.dfy`) models the poll cycle as a state machine:
  - The functions `UpdateQueue`, `UpdateMap`, `RunJob`, `RunJobsFrom` and `Cycle` work on a `World`. A `World` holds the config files, the queued flags and a log of external calls.
  - The class `Monitor` holds the same state in fields, plus the `isProcessing` flag. Its methods do the cycle step by step, with the source's branches and its loop over the rows. Each method is proved equal to its function.
  - A tick is split into `BeginCycle`, `RunCycle` and `EndCycle`; `RunCycle` runs the rows through `RunRows`, one `RunRow` per row. This lets a `Tick` that arrives while a cycle is in progress be stated sequentially (`OverlappingTick`).

External inputs are oracles supplied by the caller:

- whether the listing query throws, and the rows it returns;
- per row position:
  - whether the backend query throws;
  - whether the file write, the restart command and the flag update succeed.

The backend mapping is a read-only `map` from server id to folder. A folder is `None` when the `server_folder` column holds something other than a string, such as NULL. The config file of a folder is the key `KvpFile(folder)` of a `map` from path to text. A missing key stands for a file that `fs.access` or `fs.readFile` cannot reach.

Five behaviours of the code are easy to miss. The model keeps each of them:

- **Backend query failure.** A thrown backend query (line 89) is not caught per job. It leaves the loop and ends the whole cycle. It does not only abort that job (`BackendQueryFailed`, `LoopStopsOnlyOnThrow`).
- **Folder that is not text.** `path.join` (lines 111-112) runs before the `try` of `updateMapForServer`. A `server_folder` that is not a string makes it throw. The `await` at line 99 passes the error on, and the cycle ends at the `catch` on line 101 (`FolderNotText`, `EndsCycle`).
- **Acknowledging without rewriting.** The check after the write is a substring test. So a job can be restarted and acknowledged although no line was rewritten (`AcknowledgedWithUnchangedFile`). A reader may expect a request to be acknowledged only after its line was rewritten; the code does not ensure that. What holds is `AcknowledgedIffPipelineSucceeds`.
- **`$` in the URL.** A URL with `$` patterns is expanded by `replace` but checked raw. After `$$` the check fails (`DollarInUrlFailsVerification`), so such a job is retried every cycle.
- **Unlisted flag.** The flag update is `UPDATE ... WHERE server_id = $2`. A server id with no `next_wipe_info` row is left without one (`SetQueuedChangesOnlyThatRow`).
- **Failed write.** `fs.writeFile` is called (line 146) before it can fail. A failed write is logged as a `FileWrite` and leaves the file as it was.

## Model

| member | source | states |
|---|---|---|
| `LevelUrlPatch.LineStartAt` | map_change_monitor.js:138 | defines `^` under the `m` flag: it holds at position 0 and right after `\n`, `\r`, U+2028 or U+2029, and nowhere else |
| `LevelUrlPatch.MatchesAt` | map_change_monitor.js:138 | defines where the regex can start a match: a line starts there and the text there begins with `Rust.LevelUrl=` |
| `LevelUrlPatch.FindFrom` | map_change_monitor.js:138-139 | the result is the leftmost position at or after `i` where a line starts with `Rust.LevelUrl=`, or None when there is none |
| `LevelUrlPatch.FirstMatch` | map_change_monitor.js:138-139 | the regex match starts at the first position that starts a line and begins with `Rust.LevelUrl=`; None exactly when no position does |
| `LevelUrlPatch.LineEnd` | map_change_monitor.js:138 | `.*` stops at the first line terminator at or after `i`, or at the end of the text, and covers no terminator |
| `LevelUrlPatch.Expand` | map_change_monitor.js:142 | defines the expansion of the replacement string for a regex without groups: `$$` gives `$`, `$&` the match, `` $` `` the text before it, `$'` the text after it, and any other `$` is literal; its properties are stated by `ExpandLiteral`, `ExpandLiteralPrefix` and `DollarInUrlFailsVerification` |
| `LevelUrlPatch.Patch` | map_change_monitor.js:138-142 | defines the non-global `replace`: the first match, up to its line terminator, becomes the expansion of `Rust.LevelUrl=<url>`; with no match the text is unchanged. `PatchExpandsTemplate` and `PatchWithoutMatch` state the result |
| `LevelUrlPatch.ContainsFrom` | map_change_monitor.js:151 | the scan from `i` is true exactly when the needle occurs at some position at or after `i` |
| `LevelUrlPatch.Contains` | map_change_monitor.js:151 | `includes` is true exactly when the needle occurs at some position |
| `LevelUrlPatch.Verified` | map_change_monitor.js:151 | defines the check on the re-read text as `includes("Rust.LevelUrl=" + url)`, a substring test that `Contains` states |
| `LevelUrlPatch.ExpandLiteral` | map_change_monitor.js:142 | a replacement string without `$` is inserted as it is |
| `LevelUrlPatch.ExpandLiteralPrefix` | map_change_monitor.js:142 | the `$`-free prefix `Rust.LevelUrl=` of the replacement string is copied as it is |
| `LevelUrlPatch.MatchesAtAgree` | map_change_monitor.js:138 | whether a match starts at `q` depends only on the text up to the end of the key window at `q` |
| `LevelUrlPatch.FirstMatchIsLeftmost` | map_change_monitor.js:138-139 | a match with no match before it is the one the regex finds |
| `LevelUrlPatch.LineEndSkips` | map_change_monitor.js:138 | `.*` started inside a stretch with no terminator stops where it stops from the stretch's start |
| `LevelUrlPatch.LineEndIsFirst` | map_change_monitor.js:138 | the first terminator at or after `i` (or the end) is where `.*` stops |
| `LevelUrlPatch.KeyHasNoLineTerminator` | map_change_monitor.js:138 | the key `Rust.LevelUrl=` has no line terminator and no `$` |
| `LevelUrlPatch.PatchExpandsTemplate` | map_change_monitor.js:138-142 | with a match at `p`, the result is `s[..p] + "Rust.LevelUrl=" + Expand(url, matched, before, after) + s[e..]`, with `e` the line end at or after `p` |
| `LevelUrlPatch.PatchReplacesFirstKeyLine` | map_change_monitor.js:138-142 | with a match at `p` and no `$` in `url`, the result is `s[..p] + "Rust.LevelUrl=" + url + s[e..]`; the prefix before `p` and the suffix from `e` are unchanged |
| `LevelUrlPatch.PatchWithoutMatch` | map_change_monitor.js:138-151 | with no line starting with the key the text is unchanged, and the check passes exactly when `Rust.LevelUrl=<url>` already occurs somewhere in it |
| `LevelUrlPatch.PatchThenVerify` | map_change_monitor.js:142-151 | with a match and no `$` in `url`, the patched text passes the check made after reading it back |
| `LevelUrlPatch.FirstMatchAfterPatch` | map_change_monitor.js:138-142 | after a `$`-free patch the first match is at the same position |
| `LevelUrlPatch.LineEndAfterPatch` | map_change_monitor.js:138-142 | after a patch with no `$` and no line terminator in `url`, the patched line ends right after the written value |
| `LevelUrlPatch.PatchIdempotent` | map_change_monitor.js:138-142 | patching twice with the same `url` equals patching once, when `url` has no `$` and no line terminator |
| `LevelUrlPatch.LineTerminatorInUrlBreaksIdempotence` | map_change_monitor.js:138-142 | with `url = "b\nc"` a second patch of `Rust.LevelUrl=a` gives `Rust.LevelUrl=b\nc\nc`, not the first result |
| `LevelUrlPatch.DollarInUrlFailsVerification` | map_change_monitor.js:142-151 | with `url = "$$"` the line `Rust.LevelUrl=a` is written as `Rust.LevelUrl=$` and the check fails |
| `LevelUrlPatch.LeadingKeyLine` | map_change_monitor.js:138 | a text that starts with a key line has its match at 0, and the match ends where that line ends |
| `LevelUrlPatch.PatchLeadingKeyLine` | map_change_monitor.js:138-142 | the patch of `Rust.LevelUrl=<v>` followed by a line break (or nothing) and more text replaces only `<v>` by a `$`-free `url` |
| `LevelUrlPatch.NoMatchInOneLine` | map_change_monitor.js:138 | a single line that does not start with `R` has no match |
| `LevelUrlPatch.KeyInsideLine` | map_change_monitor.js:138-151 | in `#Rust.LevelUrl=u` the key is not matched, yet `Rust.LevelUrl=u` occurs in it |
| `LevelUrlPatch.KeyInsideLineIsKept` | map_change_monitor.js:138-151 | the patch leaves `#Rust.LevelUrl=u` unchanged, and the check for `u` passes on it |
| `MapChangeMonitor.SetQueued` | map_change_monitor.js:196-202 | defines `UPDATE next_wipe_info SET is_queued = v WHERE server_id = id` on the flags; `SetQueuedChangesOnlyThatRow` states it |
| `MapChangeMonitor.SetQueuedChangesOnlyThatRow` | map_change_monitor.js:196-202 | the update keeps the set of rows, sets the row `id` if it exists, and leaves every other row's flag as it was |
| `MapChangeMonitor.UpdateQueue` | map_change_monitor.js:194-207 | defines `updateQueueStatus`: the update is always issued; on success the flags are `SetQueued`; a thrown update is swallowed and the flags stay. `Monitor.UpdateQueueStatus` is proved equal to it |
| `MapChangeMonitor.UpdateMap` | map_change_monitor.js:109-173 | defines `updateMapForServer` on a `World`, branch by branch: folder not text, missing file, write attempted and failed, check failed, restart failed, update failed, acknowledged. `AcknowledgedIffPipelineSucceeds`, `JobEffectLog`, `RestartOnlyAfterVerify` and `JobWritesOnlyItsFile` state its results |
| `MapChangeMonitor.RunJob` | map_change_monitor.js:83-99 | defines one pass of the loop: the backend query, which may throw; a skip without a backend row; otherwise `UpdateMap` on the row's folder |
| `MapChangeMonitor.EndsCycle` | map_change_monitor.js:89-101 | the outcomes that leave the loop through the `catch` at line 101: a thrown backend query and a folder on which `path.join` throws |
| `MapChangeMonitor.RunJobsFrom` | map_change_monitor.js:82-100 | defines the loop from row `i`: rows run in order, each on the state the previous one left, up to and including a row that `EndsCycle` |
| `MapChangeMonitor.Cycle` | map_change_monitor.js:64-102 | defines the `try` block: the listing query; no rows when it throws or returns none; otherwise `RunJobsFrom` from row 0 |
| `MapChangeMonitor.Monitor.constructor` | map_change_monitor.js:39 | a new monitor is idle, with the given files, flags and mapping and an empty call log |
| `MapChangeMonitor.Monitor.BeginCycle` | map_change_monitor.js:56-61 | a tick that finds the flag raised does not start and changes nothing; otherwise it raises the flag; the world is unchanged either way |
| `MapChangeMonitor.Monitor.EndCycle` | map_change_monitor.js:103-106 | the `finally` lowers the flag and changes nothing else |
| `MapChangeMonitor.Monitor.UpdateQueueStatus` | map_change_monitor.js:194-207 | the update is issued; on success the row's flag (if the row exists) gets the value; on failure flags are unchanged |
| `MapChangeMonitor.Monitor.RestartInstance` | map_change_monitor.js:175-192 | the restart command is run once for the folder and its outcome returned; files and flags are unchanged |
| `MapChangeMonitor.Monitor.UpdateMapForServer` | map_change_monitor.js:109-173 | the new state and outcome are those of `UpdateMap`: a folder that is not text throws; missing file, write failure, failed check and failed restart each end the job; only full success clears the flag |
| `MapChangeMonitor.Monitor.ProcessRow` | map_change_monitor.js:83-99 | the new state and outcome are those of `RunJob`: backend query, skip on a missing mapping, else the map update |
| `MapChangeMonitor.Monitor.RunRow` | map_change_monitor.js:83-99 | one row changes the state so that the loop from row `i` equals this row's outcome followed by the loop from row `i + 1`, or this row alone when it `EndsCycle` |
| `MapChangeMonitor.Monitor.RunRows` | map_change_monitor.js:82-100 | the `for` loop leaves the state and outcomes that `RunJobsFrom` gives from row 0, leaving early at a row that `EndsCycle` |
| `MapChangeMonitor.Monitor.RunCycle` | map_change_monitor.js:64-102 | the new state and outcomes are those of `Cycle`: listing query, early return on no rows, rows in order, exit at a throw |
| `MapChangeMonitor.Monitor.Tick` | map_change_monitor.js:55-107 | a tick while `isProcessing` makes no query, write, restart or update and leaves the flag raised; every tick that starts a cycle ends with the flag lowered and the state `Cycle` gives, whether the rows are empty, processed or cut off by a throw |
| `MapChangeMonitor.OverlappingTick` | map_change_monitor.js:55-61 | a tick fired between a cycle's start and its `finally` is skipped, and the cycle still ends with the flag lowered and its full effect |
| `MapChangeMonitor.AcknowledgedIffPipelineSucceeds` | map_change_monitor.js:89-99 | a row is acknowledged exactly when:<br>- its backend query succeeds and finds a folder that is a string;<br>- its file exists and is written;<br>- the patched text passes the check;<br>- the restart and the update succeed.<br>Flags change only then, and only that row's, to false |
| `MapChangeMonitor.JobEffectLog` | map_change_monitor.js:89-161 | the calls one row makes, in order, for each way it can end: only the backend query when it throws, is skipped, has a folder that is not text or has no file; the query and the write when the write fails or the check fails; then the restart, then the update. A restart happens only after a written text passed the check |
| `MapChangeMonitor.RestartOnlyAfterVerify` | map_change_monitor.js:151-161 | one row only appends to the call log; it restarts at most once, right after writing a text that passed the check; the restart count grows by one exactly for outcomes that reached the restart |
| `MapChangeMonitor.JobWritesOnlyItsFile` | map_change_monitor.js:93-146 | a row changes at most its own config file, to the patched text, and does so exactly when it reaches a successful write. A row that throws in the backend query, is skipped, has a folder that is not text or has no file changes no file and no flag and makes only the backend query. A row whose write fails changes no file and no flag and makes the backend query and the write |
| `MapChangeMonitor.SuccessfulJob` | map_change_monitor.js:135-161 | a row with a mapping, a key line, a `$`-free url and succeeding calls is acknowledged: only the key line is rewritten, its flag is cleared, and the calls are exactly backend query, write, one restart, update |
| `MapChangeMonitor.JobWithoutKeyLine` | map_change_monitor.js:135-166 | a file with no `Rust.LevelUrl=` line and no occurrence of the new text is written back unchanged; the check fails; the flag is unchanged; there is no restart |
| `MapChangeMonitor.AcknowledgedWithUnchangedFile` | map_change_monitor.js:138-161 | a file whose only `Rust.LevelUrl=u` is not at a line start is left unchanged, yet the row is restarted and acknowledged |
| `MapChangeMonitor.LoopStopsOnlyOnThrow` | map_change_monitor.js:82-102 | the loop runs at most the given rows; every row but the last run ended in a way that lets it go on; fewer rows run only when the last one threw in its backend query or in `path.join` |
| `MapChangeMonitor.LoopClearsOnlyAcknowledged` | map_change_monitor.js:82-100 | a flag changes in the loop only to false, and only for a row acknowledged in it; the set of flagged ids is unchanged |
| `MapChangeMonitor.LoopKeepsClearedFlags` | map_change_monitor.js:82-100 | a cleared flag stays cleared through the rest of the loop |
| `MapChangeMonitor.AcknowledgedRowEndsUnqueued` | map_change_monitor.js:82-100 | every row acknowledged in the loop has its flag cleared at the end, whatever later rows did |
| `MapChangeMonitor.CountRestartsAppend` | map_change_monitor.js:159 | restarts in a concatenated log add up |
| `MapChangeMonitor.CountRestartedAppend` | map_change_monitor.js:159 | the count of rows that reached the restart adds up over concatenated outcome lists |
| `MapChangeMonitor.LoopRestartsOncePerVerifiedRow` | map_change_monitor.js:82-100 | the loop runs the restart command exactly once per row that reached it (failed restart, failed update or acknowledged) and never otherwise |
| `MapChangeMonitor.CycleWithoutRows` | map_change_monitor.js:64-78 | a cycle whose listing query throws or finds no rows makes only the listing query and changes no file and no flag |
| `MapChangeMonitor.CycleClearsExactlyAcknowledged` | map_change_monitor.js:64-106 | over a cycle:<br>- a flag changes only from true to false, and only for a row acknowledged in it;<br>- every acknowledged row ends unqueued;<br>- restarts equal the rows that reached the restart |

## Left out

- Database connection setup, TLS options and `process.exit` on a failed connection (lines 29-53). These are driver and process I/O. The model assumes the connection is up.
- Logging (`logConnectionDetails` and every `console.*` call, including the captured stdout/stderr of the restart command). It has no effect on control flow.
- The 15-second `setInterval` (line 214) and the 5-second settle delay (line 155). These are timers. Ticks are method calls, and the delay is a no-op.
- The shell command line `sudo -u amp ampinstmgr -r "<folder>"` (line 177). It is external process execution. Only its success or failure is kept, as an oracle.
- `path.join` normalisation (lines 111-112). Paths are the key `KvpFile(folder)`. So two folder names that normalise to one path are distinct files in the model. All values that are not strings are one case, `None`, which makes `path.join` throw.
- The three `fs.access` calls (lines 122-130) are folded into one test of the file's presence. The model does not tell a missing base or server directory apart from a missing file.
- Partial writes. A write that fails leaves the file unchanged in the model. A real failed `fs.writeFile` may leave it truncated.
- Concurrent writers. The re-read returns what was written (no other writer between write and read). The model does not include an external writer changing `is_queued` between the listing and the update.
- Event-loop concurrency. It is modelled only through sequential `BeginCycle` / `Tick` / `EndCycle` calls on one object.
- Character encoding. Text is a sequence of Unicode scalar values. JavaScript strings are UTF-16 code units. The difference does not affect line terminators, `$` or the key.
- `LevelUrlPatch.PatchReplacesFirstKeyLine`, `LevelUrlPatch.PatchThenVerify`, `LevelUrlPatch.PatchIdempotent`: these hold only for a `url` without `$`. For any other `url`, the exact result is what `LevelUrlPatch.PatchExpandsTemplate` states.
