/** The lifecycle dispatcher: one invocation resolves the executable's name,
    selects an action from the arguments and carries it out. The host's
    process table, file system, process launcher and workload appear as inputs;
    what the dispatcher does with them is the returned list of effects. */
module Dispatcher {
  import opened Effects
  import opened Selector
  import opened Liveness

  datatype Option<T> = None | Some(value: T)

  /** Everything an invocation reads from its host. */
  datatype Host = Host(
    exeName: Option<string>,     // base name of the running executable, if it resolves
    args: seq<string>,           // command-line arguments, argument 0 included
    argsUnicode: bool,           // whether every argument is valid Unicode
    selfPid: nat,                // the caller's own process identifier
    snapshot: seq<Process>,      // the process table, in enumeration order
    logOpens: bool,              // whether the daemon's log file can be opened
    spawnSucceeds: bool,         // whether launching the detached child succeeds
    workloadSucceeds: bool)      // whether the workload reports success

  const LOG_DIR := "./logs"

  /** The program the daemon action relaunches: the executable in the working directory. */
  function RelaunchProgram(app: string): string {
    "./" + app
  }

  /** The daemon's log file: the relaunch path, "./" prefix included, placed under
      the log directory. */
  function LogPath(app: string): string {
    LOG_DIR + "/" + RelaunchProgram(app) + ".log"
  }

  /** A notice and a termination request for each target, in order. */
  function StopEffects(targets: seq<Process>): (es: seq<Effect>)
    ensures |es| == 2 * |targets|
    ensures Kills(es) == Pids(targets)
  {
    if targets == [] then []
    else
      var es := [Print(Stopping(targets[0].pid, targets[0].name)), Kill(targets[0].pid)]
        + StopEffects(targets[1..]);
      assert es[2..] == StopEffects(targets[1..]);
      es
  }

  function Pids(ps: seq<Process>): (pids: seq<nat>)
    ensures |pids| == |ps|
    ensures forall k :: 0 <= k < |ps| ==> pids[k] == ps[k].pid
  {
    if ps == [] then [] else [ps[0].pid] + Pids(ps[1..])
  }

  lemma {:induction false} StopEffectsAppend(a: seq<Process>, b: seq<Process>)
    ensures StopEffects(a + b) == StopEffects(a) + StopEffects(b)
  {
    if a == [] {
      assert a + b == b;
    } else {
      assert (a + b)[0] == a[0];
      assert (a + b)[1..] == a[1..] + b;
      StopEffectsAppend(a[1..], b);
    }
  }

  /** Scanning one more entry of the snapshot adds its notice and termination
      request exactly when it qualifies. */
  lemma StopStep(app: string, scanned: seq<Process>, p: Process, selfPid: nat)
    ensures StopEffects(Targets(app, scanned + [p], selfPid)) ==
      StopEffects(Targets(app, scanned, selfPid))
        + if Qualifies(p, app, selfPid) then [Print(Stopping(p.pid, p.name)), Kill(p.pid)] else []
  {
    TargetsAppend(app, scanned, [p], selfPid);
    assert [p][1..] == [];
    StopEffectsAppend(Targets(app, scanned, selfPid), Targets(app, [p], selfPid));
    if Qualifies(p, app, selfPid) {
      assert Targets(app, [p], selfPid) == [p];
      assert StopEffects([p]) == [Print(Stopping(p.pid, p.name)), Kill(p.pid)];
    } else {
      assert Targets(app, [p], selfPid) == [];
      assert StopEffects(Targets(app, scanned, selfPid)) + [] == StopEffects(Targets(app, scanned, selfPid));
    }
  }

  /** The stop action: walks the snapshot and, for every entry with the
      executable's name and another identifier, prints a notice and requests its
      termination. Every other instance is signalled, never the caller, never a
      process of another name. */
  method Stop(app: string, snapshot: seq<Process>, selfPid: nat) returns (effects: seq<Effect>)
    ensures effects == StopEffects(Targets(app, snapshot, selfPid))
    ensures Kills(effects) == Pids(Targets(app, snapshot, selfPid))
  {
    effects := [];
    for i := 0 to |snapshot|
      invariant effects == StopEffects(Targets(app, snapshot[..i], selfPid))
    {
      var process := snapshot[i];
      if process.name == app {
        if process.pid != selfPid {
          effects := effects + [Print(Stopping(process.pid, process.name)), Kill(process.pid)];
        }
      }
      assert snapshot[..i + 1] == snapshot[..i] + [process];
      StopStep(app, snapshot[..i], process, selfPid);
    }
    assert snapshot[..|snapshot|] == snapshot;
  }

  /** The daemon action: if another instance is running, only its message is
      printed; otherwise the log directory is created, the log file opened and the
      executable relaunched with the argument "start", both output streams going to
      the log file. */
  function Daemon(app: string, snapshot: seq<Process>, selfPid: nat, logOpens: bool, spawnSucceeds: bool): (out: (seq<Effect>, Exit))
    ensures Kills(out.0) == [] && WorkloadRuns(out.0) == 0
    ensures |Spawns(out.0)| <= 1
    ensures out.1 == Normal <==> Status(app, snapshot, selfPid).1 || (logOpens && spawnSucceeds)
  {
    var (msg, isRunning) := Status(app, snapshot, selfPid);
    if isRunning then ([Print(msg)], Normal)
    else if !logOpens then ([CreateDir(LOG_DIR)], Panic(LogOpenFailed))
    else if !spawnSucceeds then ([CreateDir(LOG_DIR)], Panic(SpawnFailed))
    else ([CreateDir(LOG_DIR), Spawn(RelaunchProgram(app), "start", LogPath(app), LogPath(app))], Normal)
  }

  /** The daemon action spawns exactly when no other instance is running and the
      launch goes through, once, as "./app start" writing to "./logs/./app.log".
      When nothing else runs it first creates "./logs"; a log that does not open
      ends it with LogOpenFailed, a launch that fails with SpawnFailed. */
  lemma DaemonSpawnsOnlyWhenStopped(app: string, snapshot: seq<Process>, selfPid: nat, logOpens: bool, spawnSucceeds: bool)
    ensures Status(app, snapshot, selfPid).1 ==>
      Daemon(app, snapshot, selfPid, logOpens, spawnSucceeds).0 == [Print(Status(app, snapshot, selfPid).0)]
    ensures Spawns(Daemon(app, snapshot, selfPid, logOpens, spawnSucceeds).0) ==
      if !Status(app, snapshot, selfPid).1 && logOpens && spawnSucceeds
      then [Spawn("./" + app, "start", "./logs/./" + app + ".log", "./logs/./" + app + ".log")]
      else []
    ensures !Status(app, snapshot, selfPid).1 ==>
      Daemon(app, snapshot, selfPid, logOpens, spawnSucceeds).0[0] == CreateDir("./logs")
      && Daemon(app, snapshot, selfPid, logOpens, spawnSucceeds).1 ==
        if !logOpens then Panic(LogOpenFailed)
        else if !spawnSucceeds then Panic(SpawnFailed)
        else Normal
  {
    var (msg, isRunning) := Status(app, snapshot, selfPid);
    var out := Daemon(app, snapshot, selfPid, logOpens, spawnSucceeds).0;
    if !isRunning && logOpens && spawnSucceeds {
      assert out[1..] == [out[1]];
      assert out[1..][1..] == [];
      assert LogPath(app) == "./logs/./" + app + ".log";
    } else if !isRunning {
      assert out[1..] == [];
    }
  }

  /** Running the daemon action again once the spawned child is visible under
      the executable's name spawns nothing and reports the child, or whichever
      other instance comes first in the snapshot. */
  lemma DaemonIdempotent(app: string, snapshot: seq<Process>, selfPid: nat, childPid: nat, logOpens: bool, spawnSucceeds: bool)
    requires Process(childPid, app) in snapshot && childPid != selfPid
    ensures Spawns(Daemon(app, snapshot, selfPid, logOpens, spawnSucceeds).0) == []
    ensures Daemon(app, snapshot, selfPid, logOpens, spawnSucceeds) == ([Print(Status(app, snapshot, selfPid).0)], Normal)
  {
  }

  /** What one invocation does with its host. */
  function Dispatch(h: Host): (seq<Effect>, Exit) {
    match h.exeName
    case None => ([], Panic(NoExecutableName))
    case Some(app) =>
      if !h.argsUnicode then ([], Panic(NonUnicodeArgument))
      else
        var action := Matching(h.args);
        if action == "status" then ([Print(Status(app, h.snapshot, h.selfPid).0)], Normal)
        else if action == "stop" then (StopEffects(Targets(app, h.snapshot, h.selfPid)), Normal)
        else if action == "daemon" then Daemon(app, h.snapshot, h.selfPid, h.logOpens, h.spawnSucceeds)
        else if action == "start" then ([RunWorkload], if h.workloadSucceeds then Normal else Panic(WorkloadFailed))
        else ([Print(Help(app))], Normal)
  }

  /** The dispatcher's entry point: resolve the name, read the arguments, select
      the action, run its branch. */
  method Create(h: Host) returns (effects: seq<Effect>, exit: Exit)
    ensures (effects, exit) == Dispatch(h)
  {
    if h.exeName.None? {
      return [], Panic(NoExecutableName);
    }
    var app := h.exeName.value;
    if !h.argsUnicode {
      return [], Panic(NonUnicodeArgument);
    }
    match Matching(h.args)
    case "status" =>
      var (msg, _) := Status(app, h.snapshot, h.selfPid);
      effects, exit := [Print(msg)], Normal;
    case "stop" =>
      effects := Stop(app, h.snapshot, h.selfPid);
      exit := Normal;
    case "daemon" =>
      var (daemonEffects, daemonExit) := Daemon(app, h.snapshot, h.selfPid, h.logOpens, h.spawnSucceeds);
      effects, exit := daemonEffects, daemonExit;
    case "start" =>
      effects := [RunWorkload];
      exit := if h.workloadSucceeds then Normal else Panic(WorkloadFailed);
    case _ =>
      effects, exit := [Print(Help(app))], Normal;
  }

  /** The invocation gets as far as its branch: the executable name resolves, the
      arguments are text, and the first keyword among them is `action`. */
  predicate Selects(h: Host, action: string) {
    h.exeName.Some? && h.argsUnicode && Matching(h.args) == action
  }

  /** Only the start action runs the workload, and it runs it exactly once. */
  lemma OnlyStartRunsWorkload(h: Host)
    ensures WorkloadRuns(Dispatch(h).0) == if Selects(h, "start") then 1 else 0
  {
    if Selects(h, "stop") {
      StopSpawnsNothing(Targets(h.exeName.value, h.snapshot, h.selfPid));
    }
  }

  /** Only the stop action sends termination requests: one per other instance in
      the snapshot, in snapshot order. */
  lemma OnlyStopKills(h: Host)
    ensures Kills(Dispatch(h).0) ==
      if Selects(h, "stop")
      then Pids(Targets(h.exeName.value, h.snapshot, h.selfPid))
      else []
  {
  }

  /** The stop action never signals the caller, nor a process of another name:
      each identifier it kills belongs to a qualifying entry of the snapshot. */
  lemma {:induction false} StopKillsOnlyOtherInstances(app: string, snapshot: seq<Process>, selfPid: nat)
    ensures forall k :: 0 <= k < |Kills(StopEffects(Targets(app, snapshot, selfPid)))| ==>
      Kills(StopEffects(Targets(app, snapshot, selfPid)))[k] != selfPid
      && exists i :: 0 <= i < |snapshot| && snapshot[i] == Process(Kills(StopEffects(Targets(app, snapshot, selfPid)))[k], app)
  {
    var t := Targets(app, snapshot, selfPid);
    forall k | 0 <= k < |Kills(StopEffects(t))|
      ensures Kills(StopEffects(t))[k] != selfPid
      ensures exists i :: 0 <= i < |snapshot| && snapshot[i] == Process(Kills(StopEffects(t))[k], app)
    {
      assert t[k] in t;
      var i :| 0 <= i < |snapshot| && snapshot[i] == t[k];
    }
  }

  /** At most one child is ever spawned, and only by the daemon action when no
      other instance is running. */
  lemma OnlyDaemonSpawns(h: Host)
    ensures |Spawns(Dispatch(h).0)| <= 1
    ensures Spawns(Dispatch(h).0) != [] ==>
      Selects(h, "daemon") && !Status(h.exeName.value, h.snapshot, h.selfPid).1
  {
    if Selects(h, "daemon") {
      DaemonSpawnsOnlyWhenStopped(h.exeName.value, h.snapshot, h.selfPid, h.logOpens, h.spawnSucceeds);
    } else if Selects(h, "stop") {
      StopSpawnsNothing(Targets(h.exeName.value, h.snapshot, h.selfPid));
    }
  }

  lemma {:induction false} StopSpawnsNothing(targets: seq<Process>)
    ensures Spawns(StopEffects(targets)) == [] && WorkloadRuns(StopEffects(targets)) == 0
  {
    if targets != [] {
      var es := StopEffects(targets);
      assert es[1..][1..] == StopEffects(targets[1..]);
      StopSpawnsNothing(targets[1..]);
    }
  }

  /** Without a keyword among the arguments the invocation only prints the usage
      line, naming the executable and the four keywords. */
  lemma HelpOnlyPrints(h: Host)
    requires h.exeName.Some? && h.argsUnicode && NoKeyword(h.args)
    ensures Dispatch(h) == ([Print(Help(h.exeName.value))], Normal)
    ensures Kills(Dispatch(h).0) == [] && Spawns(Dispatch(h).0) == [] && WorkloadRuns(Dispatch(h).0) == 0
  {
  }

  /** Invoked with no keyword, an executable named "app" prints its usage line. */
  lemma HelpScenario()
    ensures Dispatch(Host(Some("app"), ["./app"], true, 7, [], true, true, true))
      == ([Print(Help("app"))], Normal)
  {
    assert NoKeyword(["./app"]);
    HelpOnlyPrints(Host(Some("app"), ["./app"], true, 7, [], true, true, true));
  }

  /** With a sibling instance 4242 alive, the status action of process 7 reports
      it, and the line printed carries the identifier in decimal. */
  lemma StatusRunningScenario()
    ensures Dispatch(Host(Some("app"), ["./app", "status"], true, 7, [Process(7, "app"), Process(4242, "app")], true, true, true))
      == ([Print(Running(4242, "app"))], Normal)
    ensures Text(Running(4242, "app")) == "<4242> \"app\" is running."
  {
    var args := ["./app", "status"];
    assert args[1..] == ["status"];
    assert Matching(args) == "status";
    var snapshot := [Process(7, "app"), Process(4242, "app")];
    assert snapshot[1..] == [Process(4242, "app")];
    RunningTextScenario();
  }

  /** Daemonising twice: with only the caller alive the child "./app start" is
      spawned; once that child (8) is visible, nothing more is spawned. */
  lemma DaemonTwiceScenario()
    ensures Dispatch(Host(Some("app"), ["./app", "daemon"], true, 7, [Process(7, "app")], true, true, true))
      == ([CreateDir("./logs"), Spawn("./app", "start", "./logs/./app.log", "./logs/./app.log")], Normal)
    ensures Dispatch(Host(Some("app"), ["./app", "daemon"], true, 9, [Process(8, "app"), Process(9, "app")], true, true, true))
      == ([Print(Running(8, "app"))], Normal)
  {
    var args := ["./app", "daemon"];
    assert args[1..] == ["daemon"];
    assert Matching(args) == "daemon";
    var first := [Process(7, "app")];
    assert first[1..] == [];
    assert Status("app", first, 7).1 == false;
    assert RelaunchProgram("app") == "./app";
    assert LogPath("app") == "./logs/./app.log";
  }

  /** A failing workload ends the start action with a panic; an unresolvable
      executable name or an argument that is not valid Unicode ends the
      invocation before any effect. */
  lemma FailureScenarios()
    ensures Dispatch(Host(Some("app"), ["./app", "start"], true, 7, [], true, true, false))
      == ([RunWorkload], Panic(WorkloadFailed))
    ensures Dispatch(Host(None, ["./app", "start"], true, 7, [], true, true, true)) == ([], Panic(NoExecutableName))
    ensures Dispatch(Host(Some("app"), ["./app", "start"], false, 7, [], true, true, true)) == ([], Panic(NonUnicodeArgument))
  {
  }
}
