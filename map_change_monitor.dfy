/**
  The poll cycle of the map change monitor.

  On every timer tick the monitor skips the tick when a cycle is still in
  progress; otherwise it raises its in-progress flag, lists the queued rows
  of `next_wipe_info`, and for each row in order resolves the instance folder
  from `server_backend_info`, patches and re-checks that instance's
  `RustModule.kvp`, restarts the instance and clears the row's queued flag.
  The flag is lowered again in a `finally`, whatever happened.

  The database, the file system and the restart command are external.  Their
  content is state of `Monitor` (the config files as a map from path to
  text, the queued flags as a map from server id to bool), and what each
  external call returns (whether a query throws, whether a write, the
  restart or the flag update succeeds) comes from an oracle the caller
  supplies, one `JobOracle` per row position.  Every external call with an
  effect is appended to an effect log, so that "no query, no write, no
  restart, no update" can be stated.

  `Cycle`, `RunJobsFrom`, `RunJob` and `UpdateMap` state the cycle as
  functions on `World`; the methods of `Monitor` do the same step by step on
  fields and are proved equal to them; the lemmas state what the cycle
  promises.
 */
module MapChangeMonitor {

  import opened LevelUrlPatch

  type ServerId = string
  type Folder = string

  /** `server_backend_info` as the monitor reads it: a server id with a row
      maps to the row's `server_folder`, which is `None` when the column holds
      something other than a string (a NULL), on which `path.join` throws. */
  type Backend = map<ServerId, Option<Folder>>

  /** `<instances dir>/<folder>/RustModule.kvp`, as a key derived from the folder. */
  datatype Path = KvpFile(folder: Folder)

  /** One queued row of `next_wipe_info`: `(server_id, level_url)`. */
  datatype Job = Job(serverId: ServerId, levelUrl: string)

  /** What the external calls made for one row return. */
  datatype JobOracle = JobOracle(
    backendQueryThrows: bool,  // the `server_backend_info` query throws
    writeSucceeds: bool,       // `fs.writeFile` completes
    restartSucceeds: bool,     // the restart command exits without error
    updateSucceeds: bool)      // the `UPDATE next_wipe_info` query completes

  /** The result of the listing query: it throws, or it returns the queued rows. */
  datatype Listing = ListingThrew | Listed(rows: seq<Job>)

  /** The external calls that have an effect or that a skipped tick must not make. */
  datatype Effect =
    | ListQuery
    | BackendQuery(serverId: ServerId)
    | FileWrite(path: Path)  // the `fs.writeFile` call, whether or not it succeeds
    | Restart(folder: Folder)
    | QueueUpdate(serverId: ServerId, isQueued: bool)

  /** How one row ended. */
  datatype JobOutcome =
    | BackendQueryFailed  // thrown out of the loop: ends the cycle
    | NoMapping           // no `server_backend_info` row: skipped
    | FolderNotText       // `path.join` threw on the folder, before the `try`: ends the cycle
    | FileMissing         // the config file cannot be reached
    | WriteFailed         // the write threw
    | VerifyFailed        // the re-read text lacks `Rust.LevelUrl=<url>`
    | RestartFailed       // the restart command failed
    | UpdateFailed        // restarted, but the flag update threw (swallowed)
    | Acknowledged        // restarted and the queued flag cleared

  /** The external state the monitor sees and changes. */
  datatype World = World(files: map<Path, string>, queued: map<ServerId, bool>, effects: seq<Effect>)

  datatype CycleResult = CycleResult(world: World, outcomes: seq<JobOutcome>)

  // ---------------------------------------------------------------------
  // The cycle as functions

  /** `UPDATE next_wipe_info SET is_queued = v WHERE server_id = id`: a
      missing row is left missing. */
  function SetQueued(queued: map<ServerId, bool>, id: ServerId, v: bool): map<ServerId, bool> {
    if id in queued then queued[id := v] else queued
  }

  /** The update leaves the set of rows as it is, sets the row `id` when it
      exists, and leaves every other row's flag as it was. */
  lemma SetQueuedChangesOnlyThatRow(queued: map<ServerId, bool>, id: ServerId, v: bool)
    ensures SetQueued(queued, id, v).Keys == queued.Keys
    ensures id in queued ==> SetQueued(queued, id, v)[id] == v
    ensures forall k :: k in queued && k != id ==> SetQueued(queued, id, v)[k] == queued[k]
  {
  }

  /** `updateQueueStatus`: the update is issued; when it throws, the error is
      swallowed and the flags stay as they were. */
  function UpdateQueue(w: World, id: ServerId, isQueued: bool, succeeds: bool): World {
    var w1 := w.(effects := w.effects + [QueueUpdate(id, isQueued)]);
    if succeeds then w1.(queued := SetQueued(w.queued, id, isQueued)) else w1
  }

  /** `updateMapForServer`: a folder that is not text makes `path.join`
      throw before the `try`; otherwise patch, write, re-read and check,
      restart, clear the flag, where every failure is caught and ends the
      job. */
  function UpdateMap(w: World, id: ServerId, url: string, folder: Option<Folder>, o: JobOracle): (World, JobOutcome) {
    if folder.None? then (w, FolderNotText)
    else
      var path := KvpFile(folder.value);
      if path !in w.files then (w, FileMissing)
      else
        var data := Patch(w.files[path], url);
        var w1 := w.(effects := w.effects + [FileWrite(path)]);
        if !o.writeSucceeds then (w1, WriteFailed)
        else
          var w2 := w1.(files := w.files[path := data]);
          if !Verified(w2.files[path], url) then (w2, VerifyFailed)
          else
            var w3 := w2.(effects := w2.effects + [Restart(folder.value)]);
            if !o.restartSucceeds then (w3, RestartFailed)
            else (UpdateQueue(w3, id, false, o.updateSucceeds),
                  if o.updateSucceeds then Acknowledged else UpdateFailed)
  }

  /** One pass of the loop over the rows: query the backend folder, skip the
      row when there is none, otherwise update the map for it. */
  function RunJob(w: World, backend: Backend, job: Job, o: JobOracle): (World, JobOutcome) {
    var w1 := w.(effects := w.effects + [BackendQuery(job.serverId)]);
    if o.backendQueryThrows then (w1, BackendQueryFailed)
    else if job.serverId !in backend then (w1, NoMapping)
    else UpdateMap(w1, job.serverId, job.levelUrl, backend[job.serverId], o)
  }

  /** The outcomes that throw out of the loop over the rows: a thrown backend
      query, and a `path.join` that throws before `updateMapForServer`'s
      `try`. */
  predicate EndsCycle(out: JobOutcome) {
    out == BackendQueryFailed || out == FolderNotText
  }

  /** A server id whose backend row holds a string folder. */
  predicate HasFolder(backend: Backend, id: ServerId) {
    id in backend && backend[id].Some?
  }

  function FolderFor(backend: Backend, id: ServerId): Folder
    requires HasFolder(backend, id)
  {
    backend[id].value
  }

  /** The loop over `rows[i..]`; a thrown backend query or `path.join` leaves
      the loop. */
  function RunJobsFrom(w: World, backend: Backend, rows: seq<Job>, i: nat, oracle: nat -> JobOracle): CycleResult
    decreases |rows| - i
  {
    if i >= |rows| then CycleResult(w, [])
    else
      var (w1, out) := RunJob(w, backend, rows[i], oracle(i));
      if EndsCycle(out) then CycleResult(w1, [out])
      else
        var r := RunJobsFrom(w1, backend, rows, i + 1, oracle);
        CycleResult(r.world, [out] + r.outcomes)
  }

  /** The body of the `try` in `checkForQueuedMapChanges`. */
  function Cycle(w: World, backend: Backend, listing: Listing, oracle: nat -> JobOracle): CycleResult {
    var w1 := w.(effects := w.effects + [ListQuery]);
    match listing
    case ListingThrew => CycleResult(w1, [])
    case Listed(rows) =>
      if |rows| == 0 then CycleResult(w1, [])
      else RunJobsFrom(w1, backend, rows, 0, oracle)
  }

  /** The outcomes after which the restart command was run. */
  predicate Restarted(out: JobOutcome) {
    out == RestartFailed || out == UpdateFailed || out == Acknowledged
  }

  /** How many times the restart command was run, by the effect log. */
  function CountRestarts(es: seq<Effect>): nat {
    if es == [] then 0
    else (if es[0].Restart? then 1 else 0) + CountRestarts(es[1..])
  }

  /** How many rows reached the restart, by their outcomes. */
  function CountRestarted(outs: seq<JobOutcome>): nat {
    if outs == [] then 0
    else (if Restarted(outs[0]) then 1 else 0) + CountRestarted(outs[1..])
  }

  /** `r` with `outs` put in front of its outcomes. */
  function Extend(outs: seq<JobOutcome>, r: CycleResult): CycleResult {
    CycleResult(r.world, outs + r.outcomes)
  }

  /** Rows run in order, each on the state the rows before it left: the loop
      from row `i` is row `i` as `RunJob` says, then, unless that row's
      row threw, the loop from row `i + 1`. */
  lemma RunJobsFromStep(w: World, backend: Backend, rows: seq<Job>, i: nat, oracle: nat -> JobOracle,
                        w1: World, out: JobOutcome)
    requires i < |rows|
    requires RunJob(w, backend, rows[i], oracle(i)) == (w1, out)
    ensures RunJobsFrom(w, backend, rows, i, oracle)
      == if EndsCycle(out) then CycleResult(w1, [out])
         else Extend([out], RunJobsFrom(w1, backend, rows, i + 1, oracle))
  {
  }

  // ---------------------------------------------------------------------
  // The monitor as a stateful object

  class Monitor {
    /** The module-level `isProcessing` flag. */
    var isProcessing: bool
    var files: map<Path, string>
    var queued: map<ServerId, bool>
    var effects: seq<Effect>
    /** `server_backend_info`, read-only to the monitor. */
    const backend: Backend

    function State(): World
      reads this
    {
      World(files, queued, effects)
    }

    constructor (files0: map<Path, string>, queued0: map<ServerId, bool>, backend0: Backend)
      ensures !isProcessing
      ensures State() == World(files0, queued0, [])
      ensures backend == backend0
    {
      isProcessing := false;
      files, queued, effects := files0, queued0, [];
      backend := backend0;
    }

    /** The guard at the start of a tick: a tick that finds the flag raised
        does nothing; otherwise it raises the flag. */
    method BeginCycle() returns (started: bool)
      modifies this
      ensures started == !old(isProcessing)
      ensures isProcessing
      ensures State() == old(State())
    {
      if isProcessing {
        started := false;
        return;
      }
      isProcessing := true;
      started := true;
    }

    /** The `finally` that ends every started cycle. */
    method EndCycle()
      modifies this
      ensures !isProcessing
      ensures State() == old(State())
    {
      isProcessing := false;
    }

    /** `updateQueueStatus(serverId, isQueued)`. */
    method UpdateQueueStatus(serverId: ServerId, isQueued: bool, succeeds: bool)
      modifies this
      ensures State() == UpdateQueue(old(State()), serverId, isQueued, succeeds)
      ensures isProcessing == old(isProcessing)
    {
      effects := effects + [QueueUpdate(serverId, isQueued)];
      if succeeds {
        queued := SetQueued(queued, serverId, isQueued);
      }
    }

    /** `restartAMPInstance(serverFolder)`: runs the restart command and
        resolves or rejects with its outcome. */
    method RestartInstance(folder: Folder, succeeds: bool) returns (ok: bool)
      modifies this
      ensures ok == succeeds
      ensures State() == old(State()).(effects := old(effects) + [Restart(folder)])
      ensures isProcessing == old(isProcessing)
    {
      effects := effects + [Restart(folder)];
      ok := succeeds;
    }

    /** `updateMapForServer(serverId, levelUrl, serverFolder)`; the settle
        delay before the restart is a no-op here. */
    method UpdateMapForServer(serverId: ServerId, levelUrl: string, folder: Option<Folder>, o: JobOracle)
      returns (outcome: JobOutcome)
      modifies this
      ensures (State(), outcome) == UpdateMap(old(State()), serverId, levelUrl, folder, o)
      ensures isProcessing == old(isProcessing)
    {
      if folder.None? {
        return FolderNotText;
      }
      var path := KvpFile(folder.value);
      if path !in files {
        return FileMissing;
      }
      var data := files[path];
      data := Patch(data, levelUrl);
      effects := effects + [FileWrite(path)];
      if !o.writeSucceeds {
        return WriteFailed;
      }
      files := files[path := data];
      var updatedData := files[path];
      if !Verified(updatedData, levelUrl) {
        return VerifyFailed;
      }
      var restarted := RestartInstance(folder.value, o.restartSucceeds);
      if !restarted {
        return RestartFailed;
      }
      UpdateQueueStatus(serverId, false, o.updateSucceeds);
      outcome := if o.updateSucceeds then Acknowledged else UpdateFailed;
    }

    /** One pass of the loop over the rows: the `server_backend_info` query,
        the skip when it finds no row, and the update of the map. */
    method ProcessRow(row: Job, o: JobOracle) returns (outcome: JobOutcome)
      modifies this
      ensures (State(), outcome) == RunJob(old(State()), backend, row, o)
      ensures isProcessing == old(isProcessing)
    {
      effects := effects + [BackendQuery(row.serverId)];
      if o.backendQueryThrows {
        return BackendQueryFailed;
      }
      if row.serverId !in backend {
        return NoMapping;
      }
      var serverFolder := backend[row.serverId];
      outcome := UpdateMapForServer(row.serverId, row.levelUrl, serverFolder, o);
    }

    /** Row `i` of the listing, as one step of the loop over the rows. */
    method RunRow(rows: seq<Job>, i: nat, oracle: nat -> JobOracle) returns (out: JobOutcome)
      requires i < |rows|
      modifies this
      ensures RunJobsFrom(old(State()), backend, rows, i, oracle)
           == if EndsCycle(out) then CycleResult(State(), [out])
              else Extend([out], RunJobsFrom(State(), backend, rows, i + 1, oracle))
      ensures isProcessing == old(isProcessing)
    {
      ghost var before := State();
      out := ProcessRow(rows[i], oracle(i));
      RunJobsFromStep(before, backend, rows, i, oracle, State(), out);
    }

    /** The loop over the listed rows, which a thrown row leaves. */
    method RunRows(rows: seq<Job>, oracle: nat -> JobOracle) returns (outcomes: seq<JobOutcome>)
      modifies this
      ensures CycleResult(State(), outcomes) == RunJobsFrom(old(State()), backend, rows, 0, oracle)
      ensures isProcessing == old(isProcessing)
    {
      outcomes := [];
      var i := 0;
      while i < |rows|
        invariant 0 <= i <= |rows|
        invariant isProcessing == old(isProcessing)
        invariant RunJobsFrom(old(State()), backend, rows, 0, oracle)
               == Extend(outcomes, RunJobsFrom(State(), backend, rows, i, oracle))
        decreases |rows| - i
      {
        var out := RunRow(rows, i, oracle);
        outcomes := outcomes + [out];
        if EndsCycle(out) {
          return;
        }
        i := i + 1;
      }
    }

    /** The `try` block of `checkForQueuedMapChanges`: the listing query and
        the loop over its rows. */
    method RunCycle(listing: Listing, oracle: nat -> JobOracle) returns (outcomes: seq<JobOutcome>)
      modifies this
      ensures CycleResult(State(), outcomes) == Cycle(old(State()), backend, listing, oracle)
      ensures isProcessing == old(isProcessing)
    {
      effects := effects + [ListQuery];
      outcomes := [];
      if listing.ListingThrew? || |listing.rows| == 0 {
        return;
      }
      outcomes := RunRows(listing.rows, oracle);
    }

    /** `checkForQueuedMapChanges`: one timer tick.  A tick that finds a cycle
        in progress makes no query, write, restart or update and leaves the
        flag raised; a tick that starts a cycle always lowers the flag. */
    method Tick(listing: Listing, oracle: nat -> JobOracle) returns (ran: bool, outcomes: seq<JobOutcome>)
      modifies this
      ensures ran == !old(isProcessing)
      ensures !ran ==> isProcessing && State() == old(State()) && outcomes == []
      ensures ran ==> !isProcessing && CycleResult(State(), outcomes) == Cycle(old(State()), backend, listing, oracle)
    {
      outcomes := [];
      ran := BeginCycle();
      if !ran {
        return;
      }
      outcomes := RunCycle(listing, oracle);
      EndCycle();
    }
  }

  /** A tick that fires while a cycle is between its start and its `finally`
      is skipped, and the cycle still ends with the flag lowered. */
  method OverlappingTick(m: Monitor, listing: Listing, oracle: nat -> JobOracle)
    returns (outcomes: seq<JobOutcome>)
    requires !m.isProcessing
    modifies m
    ensures !m.isProcessing
    ensures CycleResult(m.State(), outcomes) == Cycle(old(m.State()), m.backend, listing, oracle)
  {
    var started := m.BeginCycle();
    assert started;
    var ran, skipped := m.Tick(listing, oracle);
    assert !ran && skipped == [];
    outcomes := m.RunCycle(listing, oracle);
    m.EndCycle();
  }

  // ---------------------------------------------------------------------
  // What one job promises

  /** A row is acknowledged exactly when its backend row exists, its config
      file exists and is written, the re-read text passes the check, the
      restart succeeds and the update succeeds; the queued flags change only
      then, and only the row's own flag, to false. */
  lemma AcknowledgedIffPipelineSucceeds(w: World, backend: Backend, job: Job, o: JobOracle)
    ensures var (w', out) := RunJob(w, backend, job, o);
      out == Acknowledged
      <==> && !o.backendQueryThrows
           && HasFolder(backend, job.serverId)
           && KvpFile(FolderFor(backend, job.serverId)) in w.files
           && o.writeSucceeds
           && Verified(Patch(w.files[KvpFile(FolderFor(backend, job.serverId))], job.levelUrl), job.levelUrl)
           && o.restartSucceeds
           && o.updateSucceeds
    ensures var (w', out) := RunJob(w, backend, job, o);
      w'.queued == if out == Acknowledged then SetQueued(w.queued, job.serverId, false) else w.queued
  {
  }

  /** The calls one job makes, in order, by how it ended. */
  lemma JobEffectLog(w: World, backend: Backend, job: Job, o: JobOracle)
    ensures var (w', out) := RunJob(w, backend, job, o);
      var id := job.serverId;
      && (out in {BackendQueryFailed, NoMapping, FolderNotText, FileMissing} ==> w'.effects == w.effects + [BackendQuery(id)])
      && (out !in {BackendQueryFailed, NoMapping, FolderNotText, FileMissing} ==> HasFolder(backend, id))
      && (out == WriteFailed || out == VerifyFailed ==>
            w'.effects == w.effects + [BackendQuery(id), FileWrite(KvpFile(FolderFor(backend, id)))])
      && (out == RestartFailed ==>
            w'.effects == w.effects + [BackendQuery(id), FileWrite(KvpFile(FolderFor(backend, id))), Restart(FolderFor(backend, id))])
      && (out == UpdateFailed || out == Acknowledged ==>
            w'.effects == w.effects + [BackendQuery(id), FileWrite(KvpFile(FolderFor(backend, id))), Restart(FolderFor(backend, id)), QueueUpdate(id, false)])
      && (Restarted(out) ==> Verified(w'.files[KvpFile(FolderFor(backend, id))], job.levelUrl))
  {
  }

  lemma {:induction false} CountRestartsAppend(a: seq<Effect>, b: seq<Effect>)
    ensures CountRestarts(a + b) == CountRestarts(a) + CountRestarts(b)
  {
    if a == [] {
      assert a + b == b;
    } else {
      assert (a + b)[0] == a[0];
      assert (a + b)[1..] == a[1..] + b;
      CountRestartsAppend(a[1..], b);
    }
  }

  /** One job only appends to the effect log; it runs the restart command at
      most once, and only right after writing a text that passed the check. */
  lemma RestartOnlyAfterVerify(w: World, backend: Backend, job: Job, o: JobOracle)
    ensures var (w', out) := RunJob(w, backend, job, o);
      |w.effects| <= |w'.effects| && w'.effects[..|w.effects|] == w.effects
    ensures var (w', out) := RunJob(w, backend, job, o);
      var added := w'.effects[|w.effects|..];
      forall k :: 0 <= k < |added| && added[k].Restart? ==>
        && HasFolder(backend, job.serverId)
        && added[k] == Restart(FolderFor(backend, job.serverId))
        && 0 < k && added[k - 1] == FileWrite(KvpFile(FolderFor(backend, job.serverId)))
        && Verified(w'.files[KvpFile(FolderFor(backend, job.serverId))], job.levelUrl)
    ensures var (w', out) := RunJob(w, backend, job, o);
      CountRestarts(w'.effects) == CountRestarts(w.effects) + (if Restarted(out) then 1 else 0)
  {
    var (w', out) := RunJob(w, backend, job, o);
    JobEffectLog(w, backend, job, o);
    var id := job.serverId;
    var added: seq<Effect>;
    if out in {BackendQueryFailed, NoMapping, FolderNotText, FileMissing} {
      added := [BackendQuery(id)];
      assert CountRestarts(added) == 0 by { assert added[1..] == []; }
    } else if out == WriteFailed || out == VerifyFailed {
      added := [BackendQuery(id), FileWrite(KvpFile(FolderFor(backend, id)))];
      assert CountRestarts(added) == 0 by { assert added[1..][1..] == []; }
    } else if out == RestartFailed {
      added := [BackendQuery(id), FileWrite(KvpFile(FolderFor(backend, id))), Restart(FolderFor(backend, id))];
      assert CountRestarts(added[2..]) == 1 by { assert added[2..][1..] == []; }
      assert CountRestarts(added[1..]) == 1 by { assert added[1..][1..] == added[2..]; }
    } else {
      added := [BackendQuery(id), FileWrite(KvpFile(FolderFor(backend, id))), Restart(FolderFor(backend, id)), QueueUpdate(id, false)];
      assert CountRestarts(added[3..]) == 0 by { assert added[3..][1..] == []; }
      assert CountRestarts(added[2..]) == 1 by { assert added[2..][1..] == added[3..]; }
      assert CountRestarts(added[1..]) == 1 by { assert added[1..][1..] == added[2..]; }
    }
    assert w'.effects == w.effects + added;
    assert w'.effects[..|w.effects|] == w.effects;
    assert w'.effects[|w.effects|..] == added;
    CountRestartsAppend(w.effects, added);
  }

  /** A job touches at most its own config file, and what it leaves there is
      the patched text of what was there. */
  lemma JobWritesOnlyItsFile(w: World, backend: Backend, job: Job, o: JobOracle)
    ensures var (w', out) := RunJob(w, backend, job, o);
      w'.files == w.files
      || (&& HasFolder(backend, job.serverId)
          && KvpFile(FolderFor(backend, job.serverId)) in w.files
          && w'.files == w.files[KvpFile(FolderFor(backend, job.serverId)) := Patch(w.files[KvpFile(FolderFor(backend, job.serverId))], job.levelUrl)])
    ensures var (w', out) := RunJob(w, backend, job, o);
      out == NoMapping || out == BackendQueryFailed || out == FolderNotText || out == FileMissing
      ==> w'.files == w.files && w'.queued == w.queued && w'.effects == w.effects + [BackendQuery(job.serverId)]
    ensures var (w', out) := RunJob(w, backend, job, o);
      out == WriteFailed
      ==> && HasFolder(backend, job.serverId)
          && w'.files == w.files && w'.queued == w.queued
          && w'.effects == w.effects + [BackendQuery(job.serverId), FileWrite(KvpFile(FolderFor(backend, job.serverId)))]
    ensures var (w', out) := RunJob(w, backend, job, o);
      out !in {NoMapping, BackendQueryFailed, FolderNotText, FileMissing, WriteFailed}
      ==> && HasFolder(backend, job.serverId)
          && KvpFile(FolderFor(backend, job.serverId)) in w.files
          && w'.files == w.files[KvpFile(FolderFor(backend, job.serverId)) := Patch(w.files[KvpFile(FolderFor(backend, job.serverId))], job.levelUrl)]
  {
  }

  /** The successful path: a queued row whose folder is known, whose config
      file has a `Rust.LevelUrl=` line and whose url has no `$` is written
      with exactly that line replaced, restarted once and left unqueued,
      when the write, the restart and the update succeed. */
  lemma SuccessfulJob(w: World, backend: Backend, job: Job, o: JobOracle)
    requires HasFolder(backend, job.serverId) && KvpFile(FolderFor(backend, job.serverId)) in w.files
    requires FirstMatch(w.files[KvpFile(FolderFor(backend, job.serverId))]).Some?
    requires '$' !in job.levelUrl
    requires !o.backendQueryThrows && o.writeSucceeds && o.restartSucceeds && o.updateSucceeds
    ensures var (w', out) := RunJob(w, backend, job, o);
      var path := KvpFile(FolderFor(backend, job.serverId));
      var s := w.files[path];
      var p := FirstMatch(s).value;
      && out == Acknowledged
      && w'.files == w.files[path := s[..p] + (Key + job.levelUrl) + s[LineEnd(s, p)..]]
      && w'.queued == SetQueued(w.queued, job.serverId, false)
      && w'.effects == w.effects + [BackendQuery(job.serverId), FileWrite(path),
                                    Restart(FolderFor(backend, job.serverId)), QueueUpdate(job.serverId, false)]
  {
    var id := job.serverId;
    var folder := FolderFor(backend, id);
    var path := KvpFile(folder);
    var s := w.files[path];
    var p := FirstMatch(s).value;
    PatchThenVerify(s, job.levelUrl);
    PatchReplacesFirstKeyLine(s, job.levelUrl, p);
    AcknowledgedIffPipelineSucceeds(w, backend, job, o);
    JobEffectLog(w, backend, job, o);
    JobWritesOnlyItsFile(w, backend, job, o);
  }

  /** A config file without a `Rust.LevelUrl=` line is written back unchanged;
      the job is acknowledged only if `Rust.LevelUrl=<url>` happens to occur
      inside some other line, and otherwise fails the check with its flag
      unchanged and no restart. */
  lemma JobWithoutKeyLine(w: World, backend: Backend, job: Job, o: JobOracle)
    requires HasFolder(backend, job.serverId) && KvpFile(FolderFor(backend, job.serverId)) in w.files
    requires FirstMatch(w.files[KvpFile(FolderFor(backend, job.serverId))]) == None
    requires !Contains(w.files[KvpFile(FolderFor(backend, job.serverId))], Key + job.levelUrl)
    requires !o.backendQueryThrows && o.writeSucceeds
    ensures var (w', out) := RunJob(w, backend, job, o);
      && out == VerifyFailed
      && w'.files == w.files
      && w'.queued == w.queued
      && w'.effects == w.effects + [BackendQuery(job.serverId), FileWrite(KvpFile(FolderFor(backend, job.serverId)))]
  {
    var path := KvpFile(FolderFor(backend, job.serverId));
    PatchWithoutMatch(w.files[path], job.levelUrl);
    assert w.files[path := w.files[path]] == w.files;
  }

  /** The check after the patch is a substring test: a file whose only
      `Rust.LevelUrl=` text does not start a line is left unchanged, yet the
      job is restarted and acknowledged. */
  lemma AcknowledgedWithUnchangedFile(w: World, backend: Backend, o: JobOracle)
    requires HasFolder(backend, "s1") && KvpFile(FolderFor(backend, "s1")) in w.files
    requires w.files[KvpFile(FolderFor(backend, "s1"))] == "#" + Key + "u"
    requires !o.backendQueryThrows && o.writeSucceeds && o.restartSucceeds && o.updateSucceeds
    ensures var (w', out) := RunJob(w, backend, Job("s1", "u"), o);
      out == Acknowledged && w'.files == w.files
  {
    var path := KvpFile(FolderFor(backend, "s1"));
    var s := w.files[path];
    KeyInsideLineIsKept();
    AcknowledgedIffPipelineSucceeds(w, backend, Job("s1", "u"), o);
    JobWritesOnlyItsFile(w, backend, Job("s1", "u"), o);
    assert w.files[path := s] == w.files;
  }

  // ---------------------------------------------------------------------
  // What a cycle promises

  /** The loop stops only at a throw: every row before the last one run
      ended in a way that lets the loop go on, and a loop that ran fewer rows
      than it was given stopped at a thrown backend query or `path.join`. */
  lemma {:induction false} LoopStopsOnlyOnThrow(w: World, backend: Backend, rows: seq<Job>, i: nat, oracle: nat -> JobOracle)
    ensures var r := RunJobsFrom(w, backend, rows, i, oracle);
      i <= |rows| ==> |r.outcomes| <= |rows| - i
    ensures var r := RunJobsFrom(w, backend, rows, i, oracle);
      forall k :: 0 <= k < |r.outcomes| - 1 ==> !EndsCycle(r.outcomes[k])
    ensures var r := RunJobsFrom(w, backend, rows, i, oracle);
      i <= |rows| && |r.outcomes| < |rows| - i ==> |r.outcomes| > 0 && EndsCycle(r.outcomes[|r.outcomes| - 1])
    decreases |rows| - i
  {
    if i < |rows| {
      var (w1, out) := RunJob(w, backend, rows[i], oracle(i));
      if !EndsCycle(out) {
        LoopStopsOnlyOnThrow(w1, backend, rows, i + 1, oracle);
      }
    }
  }

  /** The loop keys no new flag, and it changes a flag only to false and only
      for a row it acknowledged. */
  lemma {:induction false} LoopClearsOnlyAcknowledged(w: World, backend: Backend, rows: seq<Job>, i: nat, oracle: nat -> JobOracle)
    ensures var r := RunJobsFrom(w, backend, rows, i, oracle);
      r.world.queued.Keys == w.queued.Keys
    ensures var r := RunJobsFrom(w, backend, rows, i, oracle);
      forall id :: id in w.queued && r.world.queued[id] != w.queued[id] ==>
        && !r.world.queued[id]
        && exists k :: 0 <= k < |r.outcomes| && i + k < |rows| && rows[i + k].serverId == id && r.outcomes[k] == Acknowledged
    decreases |rows| - i
  {
    if i < |rows| {
      var (w1, out) := RunJob(w, backend, rows[i], oracle(i));
      AcknowledgedIffPipelineSucceeds(w, backend, rows[i], oracle(i));
      if !EndsCycle(out) {
        LoopClearsOnlyAcknowledged(w1, backend, rows, i + 1, oracle);
        var r := RunJobsFrom(w, backend, rows, i, oracle);
        var r1 := RunJobsFrom(w1, backend, rows, i + 1, oracle);
        assert r.outcomes == [out] + r1.outcomes;
        forall id | id in w.queued && r.world.queued[id] != w.queued[id]
          ensures !r.world.queued[id]
          ensures exists k :: 0 <= k < |r.outcomes| && i + k < |rows| && rows[i + k].serverId == id && r.outcomes[k] == Acknowledged
        {
          if w1.queued[id] != w.queued[id] {
            assert out == Acknowledged && rows[i].serverId == id;
            assert r.outcomes[0] == Acknowledged;
          } else {
            var k1 :| 0 <= k1 < |r1.outcomes| && i + 1 + k1 < |rows| && rows[i + 1 + k1].serverId == id && r1.outcomes[k1] == Acknowledged;
            assert r.outcomes[k1 + 1] == Acknowledged;
          }
        }
      }
    }
  }

  /** A flag the loop has cleared stays cleared: every later row can only
      clear flags. */
  lemma {:induction false} LoopKeepsClearedFlags(w: World, backend: Backend, rows: seq<Job>, i: nat, oracle: nat -> JobOracle)
    ensures var r := RunJobsFrom(w, backend, rows, i, oracle);
      forall id :: id in w.queued && !w.queued[id] ==> id in r.world.queued && !r.world.queued[id]
    decreases |rows| - i
  {
    if i < |rows| {
      var (w1, out) := RunJob(w, backend, rows[i], oracle(i));
      AcknowledgedIffPipelineSucceeds(w, backend, rows[i], oracle(i));
      forall id | id in w.queued && !w.queued[id] ensures id in w1.queued && !w1.queued[id] {
      }
      if !EndsCycle(out) {
        LoopKeepsClearedFlags(w1, backend, rows, i + 1, oracle);
      }
    }
  }

  /** Every row the loop acknowledged has its flag cleared at the end of the
      cycle, whatever the rows after it did. */
  lemma {:induction false} AcknowledgedRowEndsUnqueued(w: World, backend: Backend, rows: seq<Job>, i: nat, oracle: nat -> JobOracle)
    ensures var r := RunJobsFrom(w, backend, rows, i, oracle);
      forall k :: 0 <= k < |r.outcomes| && i + k < |rows| && r.outcomes[k] == Acknowledged && rows[i + k].serverId in w.queued
        ==> rows[i + k].serverId in r.world.queued && !r.world.queued[rows[i + k].serverId]
    decreases |rows| - i
  {
    if i < |rows| {
      var (w1, out) := RunJob(w, backend, rows[i], oracle(i));
      AcknowledgedIffPipelineSucceeds(w, backend, rows[i], oracle(i));
      var r := RunJobsFrom(w, backend, rows, i, oracle);
      if !EndsCycle(out) {
        var r1 := RunJobsFrom(w1, backend, rows, i + 1, oracle);
        AcknowledgedRowEndsUnqueued(w1, backend, rows, i + 1, oracle);
        LoopKeepsClearedFlags(w1, backend, rows, i + 1, oracle);
        LoopClearsOnlyAcknowledged(w1, backend, rows, i + 1, oracle);
        assert r.outcomes == [out] + r1.outcomes;
        forall k | 0 <= k < |r.outcomes| && i + k < |rows| && r.outcomes[k] == Acknowledged && rows[i + k].serverId in w.queued
          ensures rows[i + k].serverId in r.world.queued && !r.world.queued[rows[i + k].serverId]
        {
          if k > 0 {
            assert r1.outcomes[k - 1] == Acknowledged;
            assert rows[i + 1 + (k - 1)] == rows[i + k];
          }
        }
      }
    }
  }

  lemma {:induction false} CountRestartedAppend(a: seq<JobOutcome>, b: seq<JobOutcome>)
    ensures CountRestarted(a + b) == CountRestarted(a) + CountRestarted(b)
  {
    if a == [] {
      assert a + b == b;
    } else {
      assert (a + b)[0] == a[0];
      assert (a + b)[1..] == a[1..] + b;
      CountRestartedAppend(a[1..], b);
    }
  }

  /** The loop runs the restart command exactly once for each row that
      reached the restart, and for no other. */
  lemma {:induction false} LoopRestartsOncePerVerifiedRow(w: World, backend: Backend, rows: seq<Job>, i: nat, oracle: nat -> JobOracle)
    ensures var r := RunJobsFrom(w, backend, rows, i, oracle);
      CountRestarts(r.world.effects) == CountRestarts(w.effects) + CountRestarted(r.outcomes)
    decreases |rows| - i
  {
    if i < |rows| {
      var (w1, out) := RunJob(w, backend, rows[i], oracle(i));
      RestartOnlyAfterVerify(w, backend, rows[i], oracle(i));
      assert CountRestarted([out]) == (if Restarted(out) then 1 else 0) by { assert [out][1..] == []; }
      if !EndsCycle(out) {
        LoopRestartsOncePerVerifiedRow(w1, backend, rows, i + 1, oracle);
        CountRestartedAppend([out], RunJobsFrom(w1, backend, rows, i + 1, oracle).outcomes);
      }
    }
  }

  /** A cycle whose listing query throws, or that finds no queued row, runs
      no row: it leaves files and flags as they were and makes no call
      other than the listing query. */
  lemma CycleWithoutRows(w: World, backend: Backend, listing: Listing, oracle: nat -> JobOracle)
    requires listing.ListingThrew? || listing.rows == []
    ensures Cycle(w, backend, listing, oracle) == CycleResult(w.(effects := w.effects + [ListQuery]), [])
  {
  }

  /** Across a whole cycle: the queued flags keep their keys, a flag changes
      only from true to false and only for a row acknowledged in the cycle,
      every acknowledged row ends unqueued, and the restart command ran once
      per row that reached it. */
  lemma CycleClearsExactlyAcknowledged(w: World, backend: Backend, listing: Listing, oracle: nat -> JobOracle)
    requires listing.Listed?
    ensures var r := Cycle(w, backend, listing, oracle);
      r.world.queued.Keys == w.queued.Keys
    ensures var r := Cycle(w, backend, listing, oracle);
      forall id :: id in w.queued && r.world.queued[id] != w.queued[id] ==>
        && !r.world.queued[id]
        && exists k :: 0 <= k < |r.outcomes| && k < |listing.rows| && listing.rows[k].serverId == id && r.outcomes[k] == Acknowledged
    ensures var r := Cycle(w, backend, listing, oracle);
      forall k :: 0 <= k < |r.outcomes| && k < |listing.rows| && r.outcomes[k] == Acknowledged && listing.rows[k].serverId in w.queued
        ==> listing.rows[k].serverId in r.world.queued && !r.world.queued[listing.rows[k].serverId]
    ensures var r := Cycle(w, backend, listing, oracle);
      CountRestarts(r.world.effects) == CountRestarts(w.effects) + CountRestarted(r.outcomes)
  {
    var w1 := w.(effects := w.effects + [ListQuery]);
    CountRestartsAppend(w.effects, [ListQuery]);
    assert CountRestarts([ListQuery]) == 0 by {
      assert [ListQuery][..0] == [];
    }
    var rows := listing.rows;
    if |rows| > 0 {
      LoopClearsOnlyAcknowledged(w1, backend, rows, 0, oracle);
      AcknowledgedRowEndsUnqueued(w1, backend, rows, 0, oracle);
      LoopRestartsOncePerVerifiedRow(w1, backend, rows, 0, oracle);
      var r := RunJobsFrom(w1, backend, rows, 0, oracle);
    }
  }
}
