/** What the lifecycle dispatcher sees and what it does, as values: an entry of the
    process table, the one-line messages it writes to standard output, the
    operating-system effects it asks for, and how the invocation ends. */
module Effects {

  /** One entry of a process-table snapshot: its identifier and its name. */
  datatype Process = Process(pid: nat, name: string)

  /** The messages the dispatcher prints, one line each. */
  datatype Message =
    | Running(pid: nat, name: string)   // another instance is alive
    | Stopped(app: string)              // no other instance is alive
    | Stopping(pid: nat, name: string)  // a termination request is about to be sent
    | Help(app: string)                 // usage line

  /** The operating-system effects of one invocation, in the order they happen. */
  datatype Effect =
    | Print(msg: Message)
    | Kill(pid: nat)
    | CreateDir(path: string)
    | Spawn(program: string, arg: string, stdout: string, stderr: string)
    | RunWorkload

  /** The unrecoverable errors that end an invocation with a panic. */
  datatype Fault =
    | NoExecutableName    // the name of the running executable cannot be resolved
    | NonUnicodeArgument  // a command-line argument is not valid Unicode
    | LogOpenFailed       // the daemon's log file cannot be opened
    | SpawnFailed         // "fail to start the app in daemon mode"
    | WorkloadFailed      // "fail to start the app"

  datatype Exit = Normal | Panic(fault: Fault)

  /** The decimal digit of a value below ten. */
  function DigitChar(d: nat): (c: char)
    requires d < 10
    ensures '0' <= c <= '9' && c as int - '0' as int == d
  {
    (d + '0' as int) as char
  }

  predicate IsDigits(s: string) {
    forall i :: 0 <= i < |s| ==> '0' <= s[i] <= '9'
  }

  /** The value of a string of decimal digits. */
  function DecimalValue(s: string): nat
    requires IsDigits(s)
  {
    if s == [] then 0
    else DecimalValue(s[..|s| - 1]) * 10 + (s[|s| - 1] as int - '0' as int)
  }

  /** Display formatting of a process identifier: decimal, without leading zeros. */
  function Decimal(n: nat): (s: string)
    ensures |s| >= 1 && IsDigits(s)
    ensures n == 0 ==> s == "0"
    ensures |s| > 1 ==> s[0] != '0'
  {
    if n < 10 then [DigitChar(n)]
    else Decimal(n / 10) + [DigitChar(n % 10)]
  }

  /** Reading back the digits of a formatted identifier gives the identifier. */
  lemma {:induction false} DecimalRoundTrip(n: nat)
    ensures DecimalValue(Decimal(n)) == n
  {
    var s := Decimal(n);
    if n >= 10 {
      var head := Decimal(n / 10);
      assert s[..|s| - 1] == head;
      DecimalRoundTrip(n / 10);
    } else {
      assert s[..|s| - 1] == [];
    }
  }

  /** Debug formatting of a process name, in double quotes. */
  function Quoted(name: string): string {
    "\"" + name + "\""
  }

  /** The line each message prints. */
  function Text(m: Message): string {
    match m
    case Running(pid, name) => "<" + Decimal(pid) + "> " + Quoted(name) + " is running."
    case Stopped(app) => app + " is stopped!"
    case Stopping(pid, name) => "<" + Decimal(pid) + "> " + Quoted(name) + " is stopping..."
    case Help(app) => "Help: ./" + app + " status | start | stop | daemon"
  }

  /** Process 4242 is displayed as "4242". */
  lemma DecimalScenario()
    ensures Decimal(4242) == "4242"
  {
    assert DigitChar(4) == '4' && DigitChar(2) == '2';
    assert Decimal(4) == "4";
    assert Decimal(42) == "4" + "2" == "42";
    assert Decimal(424) == "42" + "4" == "424";
    assert Decimal(4242) == "424" + "2" == "4242";
  }

  /** The running line for process 4242 of "app" carries the identifier in decimal. */
  lemma RunningTextScenario()
    ensures Text(Running(4242, "app")) == "<4242> \"app\" is running."
  {
    DecimalScenario();
    assert Text(Running(4242, "app")) == ("<" + "4242" + "> ") + ("\"app\"" + " is running.");
    assert "<" + "4242" + "> " == "<4242> ";
    assert "\"app\"" + " is running." == "\"app\" is running.";
  }

  /** The identifiers of the Kill effects, in order. */
  function Kills(es: seq<Effect>): (pids: seq<nat>)
    ensures |pids| <= |es|
    ensures forall pid :: pid in pids ==> Kill(pid) in es
  {
    if es == [] then []
    else (if es[0].Kill? then [es[0].pid] else []) + Kills(es[1..])
  }

  /** The Spawn effects, in order. */
  function Spawns(es: seq<Effect>): (spawns: seq<Effect>)
    ensures |spawns| <= |es|
    ensures forall e :: e in spawns ==> e.Spawn? && e in es
  {
    if es == [] then []
    else (if es[0].Spawn? then [es[0]] else []) + Spawns(es[1..])
  }

  /** How many times the workload is run. */
  function WorkloadRuns(es: seq<Effect>): (n: nat)
    ensures n <= |es|
    ensures n > 0 ==> RunWorkload in es
  {
    if es == [] then 0
    else (if es[0].RunWorkload? then 1 else 0) + WorkloadRuns(es[1..])
  }
}
