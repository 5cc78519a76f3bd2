/**
 * The imperative orchestrator: `startNextServer`, `stopPrevServer`,
 * `waitForStartup`, the change handler and `main`, acting on the `running`
 * record and on an explicit environment that records what is issued to the
 * outside world.
 */
module Orchestrator {
  import opened Wrappers
  import opened Slots
  import opened Commands
  import opened Cycle
  import opened Builds

  /**
   * Why the run fails: `main` rejects (`Preparation`, `StartupRejected`), or a
   * change cycle's unhandled rejection ends the process (`ListenerRejected`).
   */
  datatype Failure =
    | Preparation(cause: BuildError) // no build listed, or the download failed
    | StartupRejected(exit: Exit)     // the first readiness wait did not exit with 0
    | ListenerRejected(exit: Exit)    // a change cycle's wait rejected; the unhandled rejection ends the process

  /**
   * The outside world as the orchestrator sees it: the append-only trace of
   * commands given to the container runtime, the names of the files in the
   * local store, and the append-only log of download requests.
   */
  class Environment {
    var commands: seq<Command>
    var files: set<string>
    var downloads: seq<DownloadRequest>

    constructor (existing: set<string>)
      ensures commands == [] && files == existing && downloads == []
    {
      commands := [];
      files := existing;
      downloads := [];
    }
  }

  /** `stopPrevServer`: issue "stop" for `prevServerName()`. */
  method StopPrevServer(running: Running, env: Environment)
    modifies env
    ensures env.commands == old(env.commands) + [Stop(running.PrevServerName())]
    ensures env.files == old(env.files) && env.downloads == old(env.downloads)
  {
    env.commands := env.commands + [Stop(running.PrevServerName())];
  }

  /**
   * `waitForStartup`: issue the readiness wait on `serverName()`; `exit` is
   * the wait's exit notification. The result is the rejection value, absent
   * when the promise resolves (exit code 0).
   */
  method WaitForStartup(running: Running, env: Environment, exit: Exit) returns (rejected: Option<Exit>)
    modifies env
    ensures env.commands == old(env.commands) + [WaitForIt(running.ServerName())]
    ensures env.files == old(env.files) && env.downloads == old(env.downloads)
    ensures rejected.None? <==> Succeeded(exit)
    ensures rejected.Some? ==> rejected.value == exit
  {
    env.commands := env.commands + [WaitForIt(running.ServerName())];
    if exit == Exited(0) {
      rejected := None;
    } else {
      rejected := Some(exit);
    }
  }

  /**
   * `startNextServer`: flip the slot, issue "up" for the new slot, wait for
   * it, and only when the wait resolves stop the previous slot. On a failed
   * wait the flag stays flipped and no stop is issued.
   */
  method StartNextServer(running: Running, env: Environment, exit: Exit) returns (rejected: Option<Exit>)
    modifies running, env
    ensures running.server1 == !old(running.server1)
    ensures env.commands == old(env.commands) + CycleTrace(old(running.server1), exit)
    ensures env.files == old(env.files) && env.downloads == old(env.downloads)
    ensures rejected.None? <==> Succeeded(exit)
    ensures rejected.Some? ==> rejected.value == exit
  {
    running.server1 := !running.server1;
    env.commands := env.commands + [Up(running.ServerName())];
    rejected := WaitForStartup(running, env, exit);
    if rejected.None? {
      StopPrevServer(running, env);
    }
    assert env.commands == old(env.commands) + CycleTrace(old(running.server1), exit);
  }

  /**
   * The change listener, run once per change event, in order: each event
   * runs one full cycle. Nothing catches the listener's promise, so a
   * rejected cycle is an unhandled rejection, which ends the process: no
   * later event is handled. `waits[i]` is the readiness outcome of the i-th
   * event's cycle; the result is the rejection that ended the process, if any.
   */
  method HandleChanges(running: Running, env: Environment, waits: seq<Exit>) returns (ended: Option<Exit>)
    modifies running, env
    ensures running.server1 == Flipped(old(running.server1), |Handled(waits)|)
    ensures env.commands == old(env.commands) + Trace(old(running.server1), Handled(waits))
    ensures env.files == old(env.files) && env.downloads == old(env.downloads)
    ensures ended.None? <==> forall j :: 0 <= j < |waits| ==> Succeeded(waits[j])
    ensures ended.Some? ==> Handled(waits) != [] && ended.value == Handled(waits)[|Handled(waits)| - 1] && !Succeeded(ended.value)
  {
    ended := None;
    var i := 0;
    ghost var before, commands0 := running.server1, env.commands;
    while i < |waits| && ended.None?
      invariant 0 <= i <= |waits|
      invariant running.server1 == Flipped(before, i)
      invariant env.commands == commands0 + Trace(before, waits[..i])
      invariant env.files == old(env.files) && env.downloads == old(env.downloads)
      invariant ended.None? ==> forall j :: 0 <= j < i ==> Succeeded(waits[j])
      invariant ended.Some? ==> 0 < i && (forall j :: 0 <= j < i - 1 ==> Succeeded(waits[j]))
      invariant ended.Some? ==> ended.value == waits[i - 1] && !Succeeded(ended.value)
    {
      LogExtend(commands0, before, waits, i);
      ended := StartNextServer(running, env, waits[i]);
      i := i + 1;
    }
    HandledUpTo(waits, i);
  }

  /**
   * The build selection and cache step of `main`: select the last listed
   * build and, when its artifact is absent, request it and write it unless
   * the status is above 299. The result is the error `main` throws, if any.
   */
  method EnsureBuild(env: Environment, version: string, builds: seq<Build>, status: int) returns (failed: Option<BuildError>)
    modifies env
    ensures env.files == Prepare(version, old(env.files), builds, status).files
    ensures env.downloads == old(env.downloads) + Prepare(version, old(env.files), builds, status).requests
    ensures failed == Prepare(version, old(env.files), builds, status).error
    ensures env.commands == old(env.commands)
  {
    var latest := LatestBuild(builds);
    if latest.None? {
      return Some(NoBuilds);
    }
    var b := latest.value;
    var path := ArtifactPath(b.artifact);
    if path !in env.files {
      var request := DownloadRequest(version, b.number, b.artifact);
      env.downloads := env.downloads + [request];
      if status > 299 {
        return Some(DownloadFailed(status));
      }
      env.files := env.files + {path};
    }
    failed := None;
  }

  /**
   * The deploying part of the run: `main`'s first cycle, then, only once it
   * resolved, the watcher on the current slot's plugins directory and one
   * cycle per change event, until a change cycle rejects and so ends the
   * process. `firstWait` is the first cycle's readiness outcome and
   * `changes` those of the cycles the change events run. When every cycle
   * resolved, the result is the watched slot, fixed after the first cycle.
   */
  method Deploy(running: Running, env: Environment, firstWait: Exit, changes: seq<Exit>) returns (r: Result<Slot, Failure>)
    modifies running, env
    ensures env.files == old(env.files) && env.downloads == old(env.downloads)
    ensures !Succeeded(firstWait) ==>
      r == Err(StartupRejected(firstWait)) &&
      running.server1 == !old(running.server1) &&
      env.commands == old(env.commands) + CycleTrace(old(running.server1), firstWait)
    ensures Succeeded(firstWait) ==>
      running.server1 == Flipped(old(running.server1), 1 + |Handled(changes)|) &&
      env.commands == old(env.commands) + Trace(old(running.server1), [firstWait] + Handled(changes))
    ensures Succeeded(firstWait) && (forall j :: 0 <= j < |changes| ==> Succeeded(changes[j])) ==>
      r == Ok(Active(!old(running.server1))) && Handled(changes) == changes
    ensures Succeeded(firstWait) && !(forall j :: 0 <= j < |changes| ==> Succeeded(changes[j])) ==>
      Handled(changes) != [] && r == Err(ListenerRejected(Handled(changes)[|Handled(changes)| - 1]))
    ensures r.Ok? && !old(running.server1) ==> r.value == Server1 && (running.server1 <==> |changes| % 2 == 0)
  {
    ghost var before, commands0 := running.server1, env.commands;
    var rejected := StartNextServer(running, env, firstWait);
    if rejected.Some? {
      return Err(StartupRejected(rejected.value));
    }
    var watched := running.ServerName();
    ghost var commands1 := env.commands;
    var ended := HandleChanges(running, env, changes);
    if ended.Some? {
      r := Err(ListenerRejected(ended.value));
    } else {
      r := Ok(watched);
      HandledAll(changes);
    }
    ghost var handled := Handled(changes);
    FlipShift(before, |handled|);
    if !before && ended.None? {
      InitialRunParity(|changes|);
    }
    TraceCons(before, firstWait, handled);
    assert env.commands == commands1 + Trace(!before, handled);
    AppendAssoc(commands0, CycleTrace(before, firstWait), Trace(!before, handled));
  }

  /**
   * The whole run: `main` prepares the latest build and deploys, and its own
   * promise resolves once the watcher is installed; the change cycles that
   * follow may still end the process. `status` is the download's HTTP
   * status; the other inputs are those of `Deploy`.
   */
  method RunMain(running: Running, env: Environment, version: string, builds: seq<Build>, status: int,
              firstWait: Exit, changes: seq<Exit>) returns (r: Result<Slot, Failure>)
    modifies running, env
    ensures var prep := Prepare(version, old(env.files), builds, status);
      env.files == prep.files && env.downloads == old(env.downloads) + prep.requests
    ensures Prepare(version, old(env.files), builds, status).error.Some? ==>
      r == Err(Preparation(Prepare(version, old(env.files), builds, status).error.value)) &&
      running.server1 == old(running.server1) && env.commands == old(env.commands)
    ensures Prepare(version, old(env.files), builds, status).error.None? && !Succeeded(firstWait) ==>
      r == Err(StartupRejected(firstWait)) &&
      running.server1 == !old(running.server1) &&
      env.commands == old(env.commands) + CycleTrace(old(running.server1), firstWait)
    ensures Prepare(version, old(env.files), builds, status).error.None? && Succeeded(firstWait) ==>
      running.server1 == Flipped(old(running.server1), 1 + |Handled(changes)|) &&
      env.commands == old(env.commands) + Trace(old(running.server1), [firstWait] + Handled(changes))
    ensures Prepare(version, old(env.files), builds, status).error.None? && Succeeded(firstWait) ==>
      (r.Ok? <==> forall j :: 0 <= j < |changes| ==> Succeeded(changes[j]))
    ensures Prepare(version, old(env.files), builds, status).error.None? && Succeeded(firstWait) && !(forall j :: 0 <= j < |changes| ==> Succeeded(changes[j])) ==>
      Handled(changes) != [] && r == Err(ListenerRejected(Handled(changes)[|Handled(changes)| - 1]))
    ensures r.Ok? ==> r.value == Active(!old(running.server1)) && Handled(changes) == changes
    ensures r.Ok? && !old(running.server1) ==> r.value == Server1 && (running.server1 <==> |changes| % 2 == 0)
  {
    var failed := EnsureBuild(env, version, builds, status);
    if failed.Some? {
      return Err(Preparation(failed.value));
    }
    r := Deploy(running, env, firstWait, changes);
  }
}
