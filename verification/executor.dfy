/** Command execution as the installer performs it: `run_cmd`, `run_in_chroot` and
    `_set_password`. Each installer step is a `Step`; running a list of steps yields the
    audit lines the installer logs, the processes it starts, and whether a failing
    command ended the run. Whether a process fails is a parameter, since it depends on
    the machine. */
module Executor {
  import opened Wrappers
  import opened Text

  /** An argument vector, as handed to `subprocess.run`. */
  type Argv = seq<string>

  /** `GENTOO_ROOT`: where the new system is mounted. */
  const GentooRoot := "/mnt/gentoo"

  /** What a failing command does to the run: most commands raise out of the installer
      (`check=True`, uncaught); the few wrapped in `try/except Exception` only warn. */
  datatype Policy = Fatal | BestEffort

  /** One call of `run_cmd` (possibly through `run_in_chroot`) or of `_set_password`. */
  datatype Step =
    | Run(argv: Argv, policy: Policy)
    | SetPassword(user: string, password: string)

  /** A started process: its argument vector and the text fed to its standard input. */
  datatype Invocation = Invocation(argv: Argv, stdin: Option<string>)

  /** What running a list of steps leaves behind. */
  datatype Trace = Trace(audit: seq<string>, executed: seq<Invocation>, aborted: bool)

  /** `run_in_chroot`: the command prefixed by `chroot <root>`. */
  function InChroot(root: string, cmd: Argv): (r: Argv)
    ensures |r| == |cmd| + 2
    ensures r[0] == "chroot" && r[1] == root
    ensures r[2..] == cmd
  {
    ["chroot", root] + cmd
  }

  /** The inverse of `InChroot`: the root and the command of a chroot invocation. */
  function OutOfChroot(argv: Argv): Option<(string, Argv)> {
    if |argv| >= 2 && argv[0] == "chroot" then Some((argv[1], argv[2..])) else None
  }

  lemma OutOfChrootInChroot(root: string, cmd: Argv)
    ensures OutOfChroot(InChroot(root, cmd)) == Some((root, cmd))
  {
  }

  /** Every chroot invocation is `InChroot` of what `OutOfChroot` takes apart. */
  lemma InChrootOutOfChroot(argv: Argv)
    requires OutOfChroot(argv).Some?
    ensures InChroot(OutOfChroot(argv).value.0, OutOfChroot(argv).value.1) == argv
  {
    assert argv == argv[..2] + argv[2..];
  }

  /** The text `_set_password` logs instead of the command. */
  const RedactedPayload := "chpasswd (stdin redacted)"

  /** The marker distinguishing a previewed command from an executed one. */
  function Marker(dryRun: bool): string {
    if dryRun then " (dry-run)" else ""
  }

  /** The logged message `"[CMD]%s: %s"`. */
  function AuditLine(dryRun: bool, payload: string): (line: string)
    ensures |line| >= |payload| + 7
  {
    "[CMD]" + Marker(dryRun) + ": " + payload
  }

  /** An audit line carries the payload at its end, and it is marked as a dry run exactly
      when it is one. */
  lemma AuditLineParts(dryRun: bool, payload: string)
    ensures StartsWith(AuditLine(dryRun, payload), "[CMD]")
    ensures AuditLine(dryRun, payload)[|AuditLine(dryRun, payload)| - |payload|..] == payload
    ensures dryRun <==> StartsWith(AuditLine(dryRun, payload), "[CMD] (dry-run): ")
  {
    var line := AuditLine(dryRun, payload);
    if !dryRun {
      assert line[5] == ':';
    }
  }

  /** What a step logs, if anything: a command is logged space-joined; a password change
      is logged as a fixed text; an empty password makes `_set_password` return at once. */
  function Payload(s: Step): Option<string> {
    match s
    case Run(argv, _) => Some(Join(argv, " "))
    case SetPassword(_, password) => if password == "" then None else Some(RedactedPayload)
  }

  /** The process a step starts in a live run, if any. `chpasswd` reads `user:password`
      from its standard input; the argument vector holds no secret. */
  function Invoke(s: Step): (r: Option<Invocation>)
    ensures r.Some? <==> Payload(s).Some?
  {
    match s
    case Run(argv, _) => Some(Invocation(argv, None))
    case SetPassword(user, password) =>
      if password == "" then None
      else Some(Invocation(InChroot(GentooRoot, ["chpasswd"]), Some(user + ":" + password + "\n")))
  }

  /** Whether a failure of the step ends the run. `_set_password` is never guarded. */
  function PolicyOf(s: Step): Policy {
    match s
    case Run(_, policy) => policy
    case SetPassword(_, _) => Fatal
  }

  /** Running the steps in order. In a dry run each step only logs its line. In a live run
      each step logs its line and then starts its process; a failing process of a
      `Fatal` step ends the run, a failing `BestEffort` one does not. */
  function Execute(steps: seq<Step>, dryRun: bool, fails: Invocation -> bool): (t: Trace)
    ensures |t.audit| <= |steps| && |t.executed| <= |t.audit|
  {
    if steps == [] then Trace([], [], false)
    else
      var rest := Execute(steps[1..], dryRun, fails);
      match Payload(steps[0])
      case None => rest
      case Some(p) =>
        var line := AuditLine(dryRun, p);
        if dryRun then Trace([line] + rest.audit, rest.executed, rest.aborted)
        else
          var inv := Invoke(steps[0]).value;
          if fails(inv) && PolicyOf(steps[0]) == Fatal then Trace([line], [inv], true)
          else Trace([line] + rest.audit, [inv] + rest.executed, rest.aborted)
  }

  /** The lines logged when every step runs: the reference the traces are compared to. */
  function Preview(steps: seq<Step>, dryRun: bool): (lines: seq<string>)
    ensures |lines| <= |steps|
    ensures forall i :: 0 <= i < |lines| ==> StartsWith(lines[i], "[CMD]")
  {
    if steps == [] then []
    else
      match Payload(steps[0])
      case None => Preview(steps[1..], dryRun)
      case Some(p) =>
        AuditLineParts(dryRun, p);
        [AuditLine(dryRun, p)] + Preview(steps[1..], dryRun)
  }

  /** The processes started when every step runs. */
  function Invocations(steps: seq<Step>): (invs: seq<Invocation>)
    ensures |invs| <= |steps|
  {
    if steps == [] then []
    else
      match Invoke(steps[0])
      case None => Invocations(steps[1..])
      case Some(inv) => [inv] + Invocations(steps[1..])
  }

  /** No step whose failure is fatal fails. */
  predicate NoFatalFailure(steps: seq<Step>, fails: Invocation -> bool) {
    forall i :: 0 <= i < |steps| && Invoke(steps[i]).Some? && PolicyOf(steps[i]) == Fatal ==>
      !fails(Invoke(steps[i]).value)
  }

  /** A dry run starts no process, never aborts, and logs exactly the preview. */
  lemma {:induction false} DryRunExecutesNothing(steps: seq<Step>, fails: Invocation -> bool)
    ensures Execute(steps, true, fails) == Trace(Preview(steps, true), [], false)
  {
    if steps != [] {
      DryRunExecutesNothing(steps[1..], fails);
    }
  }

  /** A live run in which no fatal command fails logs the same commands as the dry run
      (only the marker differs) and starts every process of the plan. */
  lemma {:induction false} LiveRunFollowsPreview(steps: seq<Step>, fails: Invocation -> bool)
    requires NoFatalFailure(steps, fails)
    ensures Execute(steps, false, fails) == Trace(Preview(steps, false), Invocations(steps), false)
  {
    if steps != [] {
      assert NoFatalFailure(steps[1..], fails) by {
        forall i | 0 <= i < |steps[1..]| && Invoke(steps[1..][i]).Some? && PolicyOf(steps[1..][i]) == Fatal
          ensures !fails(Invoke(steps[1..][i]).value)
        {
          assert steps[1..][i] == steps[i + 1];
        }
      }
      LiveRunFollowsPreview(steps[1..], fails);
      assert Invoke(steps[0]).Some? && PolicyOf(steps[0]) == Fatal ==> !fails(Invoke(steps[0]).value);
    }
  }

  /** Whatever fails, a live run logs a prefix of the preview and starts a prefix of the
      plan's processes; when it aborts, the last process started is one that failed. */
  lemma {:induction false} LiveRunIsPrefix(steps: seq<Step>, fails: Invocation -> bool)
    ensures var t := Execute(steps, false, fails);
      && t.audit <= Preview(steps, false)
      && t.executed <= Invocations(steps)
      && |t.executed| == |t.audit|
      && (t.aborted ==> |t.executed| > 0 && fails(t.executed[|t.executed| - 1]))
      && (!t.aborted ==> t.audit == Preview(steps, false) && t.executed == Invocations(steps))
  {
    if steps != [] {
      LiveRunIsPrefix(steps[1..], fails);
    }
  }

  /** A live run aborts exactly when some step whose failure is fatal starts a process
      that fails, as `check=True` makes `subprocess.run` raise. */
  lemma {:induction false} AbortsExactlyOnFatalFailure(steps: seq<Step>, fails: Invocation -> bool)
    ensures Execute(steps, false, fails).aborted <==> !NoFatalFailure(steps, fails)
  {
    if steps != [] {
      AbortsExactlyOnFatalFailure(steps[1..], fails);
      NoFatalFailureCons(steps, fails);
    }
  }

  /** No fatal failure in a non-empty plan: none in its first step and none in the rest. */
  lemma NoFatalFailureCons(steps: seq<Step>, fails: Invocation -> bool)
    requires steps != []
    ensures NoFatalFailure(steps, fails) <==>
      && (Invoke(steps[0]).Some? && PolicyOf(steps[0]) == Fatal ==> !fails(Invoke(steps[0]).value))
      && NoFatalFailure(steps[1..], fails)
  {
    if NoFatalFailure(steps, fails) {
      forall i | 0 <= i < |steps[1..]| && Invoke(steps[1..][i]).Some? && PolicyOf(steps[1..][i]) == Fatal
        ensures !fails(Invoke(steps[1..][i]).value)
      {
        assert steps[1..][i] == steps[i + 1];
      }
    }
    if (Invoke(steps[0]).Some? && PolicyOf(steps[0]) == Fatal ==> !fails(Invoke(steps[0]).value))
      && NoFatalFailure(steps[1..], fails)
    {
      forall i | 0 <= i < |steps| && Invoke(steps[i]).Some? && PolicyOf(steps[i]) == Fatal
        ensures !fails(Invoke(steps[i]).value)
      {
        if i > 0 {
          assert steps[i] == steps[1..][i - 1];
        }
      }
    }
  }

  /** A dry run and a live run log the same payloads in the same order. */
  lemma {:induction false} PreviewMarkerOnly(steps: seq<Step>)
    ensures |Preview(steps, true)| == |Preview(steps, false)|
    ensures forall i :: 0 <= i < |Preview(steps, true)| ==>
      5 <= |Preview(steps, false)[i]| &&
      Preview(steps, true)[i] == "[CMD] (dry-run)" + Preview(steps, false)[i][5..]
  {
    if steps != [] {
      PreviewMarkerOnly(steps[1..]);
      var dry, live := Preview(steps, true), Preview(steps, false);
      match Payload(steps[0])
      case None =>
      case Some(p) =>
        AuditLineMarker(p);
        assert dry == [AuditLine(true, p)] + Preview(steps[1..], true);
        assert live == [AuditLine(false, p)] + Preview(steps[1..], false);
        forall i | 1 <= i < |dry|
          ensures 5 <= |live[i]| && dry[i] == "[CMD] (dry-run)" + live[i][5..]
        {
          assert dry[i] == Preview(steps[1..], true)[i - 1];
          assert live[i] == Preview(steps[1..], false)[i - 1];
        }
    }
  }

  /** The dry-run line for a payload is the live line with the marker inserted. */
  lemma AuditLineMarker(p: string)
    ensures 5 <= |AuditLine(false, p)| && AuditLine(true, p) == "[CMD] (dry-run)" + AuditLine(false, p)[5..]
  {
    assert AuditLine(false, p)[5..] == ": " + p;
  }

  /** Two step lists that differ at most in the passwords (and agree on which are empty). */
  predicate SameUpToPasswords(s: seq<Step>, t: seq<Step>) {
    && |s| == |t|
    && forall i :: 0 <= i < |s| ==>
      match s[i]
      case Run(_, _) => t[i] == s[i]
      case SetPassword(user, pw) =>
        t[i].SetPassword? && t[i].user == user && (t[i].password == "" <==> pw == "")
  }

  /** Redaction: the log, the argument vectors and the outcome of a run are the same
      whatever the passwords are; only the standard input of `chpasswd` carries them. */
  lemma {:induction false} AuditIgnoresPasswords(s: seq<Step>, t: seq<Step>, dryRun: bool, fails: Invocation -> bool)
    requires SameUpToPasswords(s, t)
    requires forall inv: Invocation, inv': Invocation :: inv.argv == inv'.argv ==> fails(inv) == fails(inv')
    ensures Execute(s, dryRun, fails).audit == Execute(t, dryRun, fails).audit
    ensures Execute(s, dryRun, fails).aborted == Execute(t, dryRun, fails).aborted
    ensures |Execute(s, dryRun, fails).executed| == |Execute(t, dryRun, fails).executed|
    ensures forall i :: 0 <= i < |Execute(s, dryRun, fails).executed| ==>
      Execute(s, dryRun, fails).executed[i].argv == Execute(t, dryRun, fails).executed[i].argv
  {
    if s != [] {
      assert SameUpToPasswords(s[1..], t[1..]) by {
        forall i | 0 <= i < |s[1..]|
          ensures match s[1..][i]
            case Run(_, _) => t[1..][i] == s[1..][i]
            case SetPassword(user, pw) =>
              t[1..][i].SetPassword? && t[1..][i].user == user && (t[1..][i].password == "" <==> pw == "")
        {
          assert s[1..][i] == s[i + 1] && t[1..][i] == t[i + 1];
        }
      }
      AuditIgnoresPasswords(s[1..], t[1..], dryRun, fails);
      assert Payload(s[0]) == Payload(t[0]);
      assert PolicyOf(s[0]) == PolicyOf(t[0]);
      if Invoke(s[0]).Some? {
        assert Invoke(s[0]).value.argv == Invoke(t[0]).value.argv;
      }
    }
  }

  /** `_set_password` logs one fixed line, whatever the user and password, and starts
      `chroot /mnt/gentoo chpasswd` with `user:password` on standard input; an empty
      password does nothing at all. */
  lemma SetPasswordShape(user: string, password: string, dryRun: bool, fails: Invocation -> bool)
    ensures password == "" ==> Execute([SetPassword(user, password)], dryRun, fails) == Trace([], [], false)
    ensures password != "" ==>
      Execute([SetPassword(user, password)], dryRun, fails).audit == [AuditLine(dryRun, RedactedPayload)]
    ensures password != "" && !dryRun ==>
      Execute([SetPassword(user, password)], dryRun, fails).executed ==
        [Invocation(["chroot", GentooRoot, "chpasswd"], Some(user + ":" + password + "\n"))]
  {
    assert InChroot(GentooRoot, ["chpasswd"]) == ["chroot", GentooRoot, "chpasswd"];
  }
}
