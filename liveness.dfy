/** The liveness check and the choice of processes to stop, over one snapshot of
    the process table. An entry counts as another instance when its name is
    exactly the executable's name and its identifier is not the caller's. */
module Liveness {
  import opened Effects

  predicate Qualifies(p: Process, app: string, selfPid: nat) {
    p.name == app && p.pid != selfPid
  }

  predicate NoneQualifies(procs: seq<Process>, app: string, selfPid: nat) {
    forall j :: 0 <= j < |procs| ==> !Qualifies(procs[j], app, selfPid)
  }

  /** Reports whether another instance is running: the first qualifying entry in
      enumeration order with true, or the stopped message with false. */
  function Status(app: string, procs: seq<Process>, selfPid: nat): (r: (Message, bool))
    ensures r.1 <==> !NoneQualifies(procs, app, selfPid)
    ensures r.1 ==>
      exists i :: 0 <= i < |procs| && Qualifies(procs[i], app, selfPid)
        && NoneQualifies(procs[..i], app, selfPid)
        && r.0 == Running(procs[i].pid, procs[i].name)
    ensures !r.1 ==> r.0 == Stopped(app)
  {
    if procs == [] then (Stopped(app), false)
    else if procs[0].name == app && procs[0].pid != selfPid then
      assert NoneQualifies(procs[..0], app, selfPid);
      (Running(procs[0].pid, procs[0].name), true)
    else
      var r := Status(app, procs[1..], selfPid);
      assert r.1 ==>
        exists i :: 0 <= i < |procs| && Qualifies(procs[i], app, selfPid)
          && NoneQualifies(procs[..i], app, selfPid)
          && r.0 == Running(procs[i].pid, procs[i].name)
      by {
        if r.1 {
          var i :| 0 <= i < |procs[1..]| && Qualifies(procs[1..][i], app, selfPid)
            && NoneQualifies(procs[1..][..i], app, selfPid)
            && r.0 == Running(procs[1..][i].pid, procs[1..][i].name);
          assert procs[..i + 1] == [procs[0]] + procs[1..][..i];
          assert procs[i + 1] == procs[1..][i];
        }
      }
      assert NoneQualifies(procs[1..], app, selfPid) ==> NoneQualifies(procs, app, selfPid) by {
        if NoneQualifies(procs[1..], app, selfPid) {
          forall j | 0 <= j < |procs| ensures !Qualifies(procs[j], app, selfPid) {
            if j > 0 { assert procs[j] == procs[1..][j - 1]; }
          }
        }
      }
      r
  }

  /** The entries the stop action sends a termination request to, in snapshot order. */
  function Targets(app: string, procs: seq<Process>, selfPid: nat): (t: seq<Process>)
    ensures |t| <= |procs|
    ensures forall p :: p in t <==> p in procs && Qualifies(p, app, selfPid)
  {
    if procs == [] then []
    else if Qualifies(procs[0], app, selfPid) then [procs[0]] + Targets(app, procs[1..], selfPid)
    else Targets(app, procs[1..], selfPid)
  }

  /** Stop targets distribute over concatenation of snapshots: every entry is
      decided on its own, and the order of the snapshot is kept. */
  lemma {:induction false} TargetsAppend(app: string, a: seq<Process>, b: seq<Process>, selfPid: nat)
    ensures Targets(app, a + b, selfPid) == Targets(app, a, selfPid) + Targets(app, b, selfPid)
  {
    if a == [] {
      assert a + b == b;
    } else {
      assert (a + b)[0] == a[0];
      assert (a + b)[1..] == a[1..] + b;
      TargetsAppend(app, a[1..], b, selfPid);
    }
  }

  /** The stop action signals every other instance while the liveness check
      reports only one: the check reports running exactly when the stop action has
      something to stop, and then names the first target. */
  lemma {:induction false} StatusReportsFirstTarget(app: string, procs: seq<Process>, selfPid: nat)
    ensures Status(app, procs, selfPid).1 <==> Targets(app, procs, selfPid) != []
    ensures Status(app, procs, selfPid).1 ==>
      Status(app, procs, selfPid).0 == Running(Targets(app, procs, selfPid)[0].pid, Targets(app, procs, selfPid)[0].name)
  {
    if procs != [] && !Qualifies(procs[0], app, selfPid) {
      StatusReportsFirstTarget(app, procs[1..], selfPid);
    }
  }

  /** The caller's own entry never changes the liveness check, wherever it sits in
      the snapshot and whatever its name. */
  lemma {:induction false} StatusIgnoresSelf(app: string, a: seq<Process>, b: seq<Process>, selfPid: nat, name: string)
    ensures Status(app, a + [Process(selfPid, name)] + b, selfPid) == Status(app, a + b, selfPid)
  {
    var s := a + [Process(selfPid, name)] + b;
    if a == [] {
      assert s[1..] == b;
      assert a + b == b;
    } else {
      assert s[0] == (a + b)[0] == a[0];
      assert s[1..] == a[1..] + [Process(selfPid, name)] + b;
      assert (a + b)[1..] == a[1..] + b;
      StatusIgnoresSelf(app, a[1..], b, selfPid, name);
    }
  }

  /** Liveness scenarios: the caller alone under the executable's name, and a
      sibling with identifier 4242. */
  lemma StatusScenarios()
    ensures Status("app", [Process(1, "bash"), Process(7, "app")], 7) == (Stopped("app"), false)
    ensures Status("app", [Process(7, "app"), Process(4242, "app")], 7) == (Running(4242, "app"), true)
  {
  }
}
