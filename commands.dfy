/**
 * The commands the orchestrator hands to the external runtime, and the exit
 * status the runtime reports back for the readiness wait.
 */
module Commands {
  import opened Slots

  /** The compose file every `docker compose` invocation names. */
  const ComposeFile: string := "/docker-compose.server.yml"
  /** How every `docker compose` command line begins. */
  const ComposePrefix: string := "docker compose -f " + ComposeFile + " "
  /** The game port the readiness wait polls. */
  const ReadyPort: string := "25565"
  /** The readiness wait's bound, in seconds. */
  const ReadyTimeout: string := "60"

  /** One command issued to the external runtime. */
  datatype Command =
    | Up(slot: Slot)         // docker compose ... up -d <slot>
    | WaitForIt(slot: Slot)  // wait-for-it <slot>:25565 -t 60
    | Stop(slot: Slot)       // docker compose ... stop <slot>

  /** The exit notification of a child process: a code, or none when a signal ended it. */
  datatype Exit = Exited(code: int) | Signalled

  /** The readiness promise resolves only on exit code 0. */
  predicate Succeeded(e: Exit): (resolved: bool)
    ensures e.Signalled? ==> !resolved
    ensures e.Exited? ==> (resolved <==> e.code == 0)
  {
    e == Exited(0)
  }

  /** The shell command line that is executed for a command. */
  function CommandLine(c: Command): (line: string)
    ensures c.WaitForIt? ==> |line| == 31 && line[..12] == "wait-for-it " && line[12..19] == c.slot.Label() && line[19..] == ":25565 -t 60"
    ensures !c.WaitForIt? ==> |line| > |ComposePrefix| + 7 && line[..|ComposePrefix|] == ComposePrefix
    ensures !c.WaitForIt? ==> line[|line| - 7..] == c.slot.Label()
    ensures c.Up? ==> line[|ComposePrefix|..|line| - 7] == "up -d "
    ensures c.Stop? ==> line[|ComposePrefix|..|line| - 7] == "stop "
  {
    match c
    case Up(s) => "docker compose -f " + ComposeFile + " up -d " + s.Label()
    case WaitForIt(s) => "wait-for-it " + s.Label() + ":" + ReadyPort + " -t " + ReadyTimeout
    case Stop(s) =>
      var line := "docker compose -f " + ComposeFile + " stop " + s.Label();
      assert line[|ComposePrefix|] == 's';
      line
  }

  /** Distinct commands produce distinct command lines, so a trace of commands is a faithful record of what was executed. */
  lemma CommandLineInjective(a: Command, b: Command)
    ensures CommandLine(a) == CommandLine(b) <==> a == b
  {
  }
}
