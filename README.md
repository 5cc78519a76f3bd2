# DockerMC blue-green switcher, modelled in Dafny

DockerMC redeploys a Minecraft server with no downtime. It keeps two compose
services, `server1` and `server2`, and switches between them. One boolean,
`running.server1`, says which service is current. Each redeploy flips that
boolean. It then starts the service now named current and waits for its game
port (25565, at most 60 s). Only when the wait succeeds does it stop the other
service. Before the first deploy, `main` selects the last build the registry
lists. It downloads that build's artifact into `/mcserver/` only if no file of
that name exists there. After the first deploy, every plugin change event runs
another redeploy cycle.

The model has six modules:

- `Slots` (slots.dfy): the two-valued `Slot` type with its service names. The
  `Running` class holds the one `server1` field, with `ServerName()` and
  `PrevServerName()`.
- `Commands` (commands.dfy): the three commands issued to the container
  runtime (`Up`, `WaitForIt`, `Stop`) and their exact command lines. It also
  holds the exit notification of the readiness wait: a code, or `Signalled`,
  for Node's `null` code when a signal ends the process.
- `Cycle` (cycle.dfy): the specification on values. `CycleTrace` gives the
  commands of one cycle. `Flipped` gives the flag after k cycles. `Trace` gives
  the commands of consecutive cycles. `Handled` gives the change events
  handled before a rejected change cycle ends the process. `Live` reads a trace as the set of
  running services. The lemmas cover ordering, parity, stop counts and which
  services are left running.
- `Builds` (builds.dfy): build selection (`LatestBuild`) and the cache decision
  (`Sync`, `Prepare`). The file store is a set of paths, and the HTTP answer
  is an abstract status.
- `Orchestrator` (orchestrator.dfy): the imperative code. It has
  `StopPrevServer`, `WaitForStartup`, `StartNextServer`, the change-event loop
  `HandleChanges`, and `EnsureBuild`, `Deploy` and `RunMain`, which together model `main` and the change events that follow it. They act on a `Running`
  object and on an `Environment` object. `Environment` holds an append-only
  command trace, the file set and an append-only log of download requests.
  Each method is proved against the functions in `Cycle` and `Builds`.
- `Wrappers` (wrappers.dfy): `Option` and `Result`.

Three points of the code's behaviour shape the model:

- The flag is flipped before the readiness wait. After a failed wait it stays
  flipped, and no stop is issued.
- The download error test is `status > 299`.
- Nothing catches the change listener's promise. A change cycle whose wait
  rejects is an unhandled rejection, and under Node's default handling of
  those (since Node 15) the process ends, so no later change event is
  handled. A rejection of the first deploy rejects `main`, so the watcher is
  never installed.

## Model

| member | source | states |
|---|---|---|
| `Slots.Running.constructor` | src/index.ts:6-11 | the record starts with `server1 = false`, so `serverName()` is server2 and `prevServerName()` is server1 |
| `Slots.Running.ServerName` | src/index.ts:11 | the current slot's name is "server1" exactly when `server1` holds, else "server2" |
| `Slots.Running.PrevServerName` | src/index.ts:11 | the previous slot is always the complement of `serverName()`, and its name is "server2" exactly when `server1` holds |
| `Slots.Slot.Other` | src/index.ts:11 | the complement of a slot is a different slot |
| `Slots.ActiveComplement` | src/index.ts:11 | the two flag values designate complementary slots, and taking the complement twice gives the slot back |
| `Slots.Slot.Label` | src/index.ts:11 | the service name is "server" followed by the slot's digit, '1' for server1 and '2' for server2 |
| `Slots.LabelsDistinct` | src/index.ts:11 | every service name is "server1" or "server2", and two slots share a name only if they are the same slot |
| `Commands.Succeeded` | src/index.ts:55-59 | the readiness promise resolves only on exit code 0; any other code, and a signal end with no code, rejects |
| `Commands.CommandLine` | src/index.ts:41-54 | "up" and "stop" lines start with `docker compose -f /docker-compose.server.yml `, continue with `up -d ` for "up" and `stop ` for "stop", and end with the slot's name; the wait line is `wait-for-it `, the slot's name, then `:25565 -t 60` |
| `Commands.CommandLineInjective` | src/index.ts:41-54 | the `up -d`, `wait-for-it <slot>:25565 -t 60` and `stop` command lines of distinct commands are distinct, so the command trace determines what was executed |
| `Cycle.CycleTrace` | src/index.ts:38-48 | one cycle issues "up" for the new slot, then the readiness wait on it, then, only if the wait succeeded, "stop" for the slot that was current before the call; the stopped slot is never the one started |
| `Cycle.FirstCycleFromInitial` | src/index.ts:39-48 | from `server1 = false` the first cycle starts and waits on server1, and on success stops server2 |
| `Cycle.FlippedParity` | src/index.ts:39 | after k cycles the flag has changed exactly when k is odd, whatever the readiness outcomes |
| `Cycle.InitialParity` | src/index.ts:39 | from the initial state, `server1` holds after k cycles exactly when k is odd |
| `Cycle.Trace` | src/index.ts:31-35 | consecutive cycles issue at least two commands each, and a non-empty run opens with "up" and the wait on the slot the first flip selects |
| `Cycle.HandledShape` | src/index.ts:32-35 | the change events handled before the process ends are a prefix of the events, every one but the last resolved, and either all events are handled or the last handled one rejected |
| `Cycle.HandledAll` | src/index.ts:32-35 | every event is handled and none rejected exactly when every readiness wait succeeded |
| `Cycle.HandledUpTo` | src/index.ts:32-35 | the handled events are exactly the first n when the first n - 1 resolved and the n-th rejected or none remain |
| `Cycle.InitialRunParity` | src/index.ts:31-35 | from the initial state, the initial deploy and k change cycles leave `server1` set exactly when k is even |
| `Cycle.CycleStops` | src/index.ts:42-43 | one cycle issues a stop exactly when its readiness wait succeeded |
| `Cycle.StopsMatchSuccesses` | src/index.ts:32-44 | over any run of cycles the number of stop commands equals the number of successful waits, and the trace has two commands per cycle plus one per success |
| `Cycle.CycleLive` | src/index.ts:41-48 | a successful cycle leaves only its target running; a failed one adds its target and stops nothing, so the slot that was serving keeps running |
| `Cycle.CurrentIsLive` | src/index.ts:32-48 | after any non-empty run of cycles the slot the flag designates is running, and after a successful last cycle it is the only one running |
| `Cycle.FailureThenRecovery` | src/index.ts:38-60 | a failed cycle followed by a successful one issues `up` again for the slot that kept serving, waits on it, and then stops the slot the failed cycle started |
| `Builds.ArtifactPath` | src/index.ts:19-27 | the probed and written path is `/mcserver/` followed by the artifact name |
| `Builds.ArtifactPathInjective` | src/index.ts:19-27 | distinct artifact names map to distinct paths |
| `Builds.LatestBuild` | src/index.ts:16 | an empty list selects nothing; otherwise the selection is one of the listed builds |
| `Builds.LatestIsLastListed` | src/index.ts:16 | the build listed last is selected, whatever came before |
| `Builds.LatestIsNotMaximum` | src/index.ts:16 | no sorting happens: an out-of-order list selects its last entry, not its highest number |
| `Builds.Sync` | src/index.ts:18-30 | if the artifact is present, no request is made and nothing changes; otherwise exactly one download of (version, build, name) is requested; a status above 299 is an error that writes nothing; any other status adds exactly the artifact's path; success holds exactly when the artifact is present afterwards |
| `Builds.Prepare` | src/index.ts:15-30 | an empty build list is an error with no request and no write; otherwise the cache decision runs on the last build; files are never removed and at most one download is requested |
| `Builds.PrepareIdempotent` | src/index.ts:18-20 | after a successful preparation, preparing again with the same registry answer requests nothing and changes nothing |
| `Builds.AtMostOneDownload` | src/index.ts:18-29 | after a successful first preparation, the two preparations together request exactly one download if the artifact was absent and none if it was present |
| `Orchestrator.StopPrevServer` | src/index.ts:46-49 | appends exactly one "stop" for `prevServerName()` to the trace and changes nothing else |
| `Orchestrator.WaitForStartup` | src/index.ts:51-63 | appends the readiness wait on `serverName()` and resolves exactly when the exit code is 0; otherwise it rejects with the exit value |
| `Orchestrator.StartNextServer` | src/index.ts:38-44 | flips `server1` exactly once and appends exactly `CycleTrace` of the old flag, so a failed wait leaves the flag flipped and issues no stop; it rejects exactly when the wait did not exit with 0 |
| `Orchestrator.HandleChanges` | src/index.ts:32-35 | one full cycle per change event, in order, up to and including the first cycle whose wait rejects, after which the process ends; the flag is flipped once per handled event and the trace grows by `Trace` of the handled outcomes; the result is that rejection, absent exactly when every wait succeeded |
| `Orchestrator.EnsureBuild` | src/index.ts:15-30 | the file store, the download log and the error change exactly as `Prepare` says, and no command is issued |
| `Orchestrator.Deploy` | src/index.ts:31-35 | a rejected first cycle rejects, leaving the flag flipped and no change event handled; otherwise the first cycle and the handled change cycles run and the flag is flipped once per cycle; the result is the watched slot (the one current after the first cycle, server1 from the initial state) exactly when every change cycle resolved, and otherwise the rejection that ended the process |
| `Orchestrator.RunMain` | src/index.ts:13-36 | the file store and download log change exactly as `Prepare` says; a preparation error issues no command and leaves the flag alone; otherwise the run deploys as `Deploy` states. `main`'s own promise resolves once the watcher is installed. The run succeeds exactly when every change cycle resolved. When a change cycle rejects, the run ends with `ListenerRejected` carrying the last handled exit; that rejection is unhandled and ends the process, not `main` |

## Left out

- HTTP fetching, JSON decoding and the URL strings are left out. The
  registry's answer is the `builds` parameter, and the download's answer is
  the `status` parameter. A registry request that fails or returns malformed
  JSON is not modelled.
- The download body is not modelled, only whether the file is written.
  `fs.access` and `fs.writeFile` become membership in a set of paths and an
  insertion into it. Failures of those calls other than a missing file are
  not modelled.
- Running `docker compose` and `wait-for-it` is left out: the TCP polling, the
  60 s timer, stdout and stderr. Only the issued command and the exit
  notification of the wait are kept. "up" and "stop" are not awaited in the
  source, and their errors are only logged, so the model records that they
  were issued and nothing more.
- `Cycle.Live` reads "up" as starting a service and "stop" as stopping it.
  This is the compose runtime's meaning, not code in the repository.
- chokidar watching is reduced to a sequence of change events, each carrying
  its cycle's readiness outcome. The watched glob is represented by the slot
  whose plugins directory it names.
- `Orchestrator.HandleChanges`: an unhandled rejection is taken to end the
  process, as Node does by default since version 15. The Node version the
  service runs on is not part of this model. Under older Node, or with
  `--unhandled-rejections=warn`, later change events would still be handled.
- Overlapping change handlers are not modelled. The source has no guard
  against a second cycle starting while one is running. The model runs the
  cycles one after another.
- The `process` field of `running` is never assigned in the source and is not
  modelled.
- `loggingCallback`, all console output, the date parsing on line 17 and the
  top-level `catch` that logs the rejection of `main` are left out.
- `Builds.LatestBuild`: an empty list gives `None` (and `RunMain` gives the
  `NoBuilds` error). In the source, an empty list makes `lastBuild` undefined,
  and reading its fields throws.
