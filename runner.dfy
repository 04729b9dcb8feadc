/** `run_script` (mydeps.py:74-87) and `smart_import` (mydeps.py:64-72): run
    something, and when a module is missing, install it and try again. */
module Runner {
  import opened Wrappers
  import opened Text
  import opened Manifest
  import opened Packages

  /** The exit status of a child that failed: `check_call` raises only for
      a non-zero status. */
  type ExitCode = c: int | c != 0 witness 1

  /** How one attempt to run the script ends: it exits cleanly, the child
      exits non-zero (`CalledProcessError` with its return code), or a
      `ModuleNotFoundError` carrying `message` is raised. Which of these
      each attempt yields is supplied from outside, in order. */
  datatype Attempt = Exited | ProcessError(code: ExitCode) | ModuleNotFound(message: string)

  /** The exception `run_script` lets escape: the script's own failure,
      re-raised unchanged; a failing `pip install`; or the `IndexError` of a
      message with no quote in it. */
  datatype Failure = ScriptFailed(code: ExitCode) | InstallFailed(call: Call) | IndexError(message: string)

  /** `Finished`: the loop broke after a clean run. `OutOfAttempts`: every
      supplied attempt asked for a retry, so the source would still be looping. */
  datatype Verdict = Finished | Raised(failure: Failure) | OutOfAttempts

  /** What a run did: how it ended, the installer calls in order, the world after. */
  datatype Run = Run(verdict: Verdict, calls: seq<Call>, world: World)

  /** The retry loop over the supplied attempts, starting in world `w`. */
  function RunLoop(attempts: seq<Attempt>, w: World): Run
    decreases |attempts|
  {
    if attempts == [] then Run(OutOfAttempts, [], w)
    else
      match attempts[0]
      case Exited => Run(Finished, [], w)
      case ProcessError(code) => Run(Raised(ScriptFailed(code)), [], w)
      case ModuleNotFound(message) =>
        match SecondField(message)
        case None => Run(Raised(IndexError(message)), [], w)
        case Some(name) =>
          var c := PipInstall(name);
          if c in w.rejects then Run(Raised(InstallFailed(c)), [c], w)
          else
            var rest := RunLoop(attempts[1..], After(w, c));
            rest.(calls := [c] + rest.calls)
  }

  /** The names the accepted installs in `calls` make importable. */
  function Installed(calls: seq<Call>): set<string> {
    if calls == [] then {}
    else (if calls[0].PipInstall? then {PackageName(calls[0].arg)} else {}) + Installed(calls[1..])
  }

  /** How many of a run's calls took effect: all but a failing last install. */
  function Accepted(r: Run): nat {
    if r.verdict.Raised? && r.verdict.failure.InstallFailed? && |r.calls| > 0
    then |r.calls| - 1 else |r.calls|
  }

  /** Call `j` is the install that repairs attempt `j`: that attempt raised
      `ModuleNotFoundError` and the call installs the name its message quotes. */
  predicate Repairs(attempts: seq<Attempt>, calls: seq<Call>, j: nat)
    requires j < |attempts| && j < |calls|
  {
    attempts[j].ModuleNotFound? && SecondField(attempts[j].message) == Some(calls[j].arg)
    && calls[j].PipInstall?
  }

  /** The installs of a run, attempt by attempt: the run makes at most one
      call per attempt, call `j` installs the name attempt `j` reported
      missing, and every call but a failing last one was accepted. */
  lemma {:induction false} RunLoopCalls(attempts: seq<Attempt>, w: World)
    ensures var r := RunLoop(attempts, w);
            && Accepted(r) <= |r.calls| <= |attempts|
            && (forall j | 0 <= j < |r.calls| :: Repairs(attempts, r.calls, j))
            && (forall j | 0 <= j < Accepted(r) :: r.calls[j] !in w.rejects)
  {
    var r := RunLoop(attempts, w);
    if attempts != [] && attempts[0].ModuleNotFound? && SecondField(attempts[0].message).Some? {
      var c := PipInstall(SecondField(attempts[0].message).value);
      if c !in w.rejects {
        var w1 := After(w, c);
        var rest := RunLoop(attempts[1..], w1);
        RunLoopCalls(attempts[1..], w1);
        assert r.calls == [c] + rest.calls;
        assert Accepted(r) == Accepted(rest) + 1;
        forall j | 0 <= j < |r.calls| ensures Repairs(attempts, r.calls, j) {
          if j > 0 {
            assert Repairs(attempts[1..], rest.calls, j - 1);
          }
        }
      }
    }
  }

  /** The world after a run has gained exactly the names its accepted
      installs provide; nothing is ever removed, and the script's imports,
      made in a child process, leave this process's module cache alone. */
  lemma {:induction false} RunLoopWorld(attempts: seq<Attempt>, w: World)
    ensures var r := RunLoop(attempts, w);
            r.world == World(w.installed + Installed(r.calls[..Accepted(r)]), w.loaded, w.rejects)
  {
    var r := RunLoop(attempts, w);
    if attempts != [] && attempts[0].ModuleNotFound? && SecondField(attempts[0].message).Some? {
      var c := PipInstall(SecondField(attempts[0].message).value);
      if c in w.rejects {
        assert r.calls[..Accepted(r)] == [];
      } else {
        var w1 := After(w, c);
        var rest := RunLoop(attempts[1..], w1);
        RunLoopWorld(attempts[1..], w1);
        assert r.calls == [c] + rest.calls;
        assert Accepted(r) == Accepted(rest) + 1;
        assert r.calls[..Accepted(r)] == [c] + rest.calls[..Accepted(rest)];
        assert Installed(r.calls[..Accepted(r)]) == {PackageName(c.arg)} + Installed(rest.calls[..Accepted(rest)]);
      }
    } else {
      assert r.calls[..Accepted(r)] == [];
    }
  }

  /** How a run ends is decided by the attempt after its accepted installs:
      it finishes exactly when that attempt exits cleanly and re-raises a
      script failure exactly when that attempt failed with the same code,
      in both cases installing nothing more; a message without a quote ends
      in `IndexError` before any install; a failing install is the run's
      last call; and the run outlasts the attempts only when every one of
      them was repaired. */
  lemma {:induction false} RunLoopEnd(attempts: seq<Attempt>, w: World)
    ensures var r := RunLoop(attempts, w);
            var n := Accepted(r);
            && n <= |attempts|
            && (r.verdict == Finished <==> n < |attempts| && attempts[n] == Exited)
            && (forall code: ExitCode ::
                  r.verdict == Raised(ScriptFailed(code)) <==>
                  n < |attempts| && attempts[n] == ProcessError(code))
            && (r.verdict.Raised? && r.verdict.failure.IndexError? <==>
                  n < |attempts| && attempts[n].ModuleNotFound? && SecondField(attempts[n].message) == None)
            && (r.verdict.Raised? && r.verdict.failure.IndexError? ==>
                  attempts[n] == ModuleNotFound(r.verdict.failure.message))
            && (r.verdict.Raised? && r.verdict.failure.InstallFailed? ==>
                  |r.calls| == n + 1 && r.calls[n] == r.verdict.failure.call
                  && r.verdict.failure.call in w.rejects)
            && (!(r.verdict.Raised? && r.verdict.failure.InstallFailed?) ==> |r.calls| == n)
            && (r.verdict == OutOfAttempts <==> n == |attempts|)
  {
    if attempts != [] && attempts[0].ModuleNotFound? && SecondField(attempts[0].message).Some? {
      var c := PipInstall(SecondField(attempts[0].message).value);
      if c !in w.rejects {
        var w1 := After(w, c);
        RunLoopEnd(attempts[1..], w1);
        var r := RunLoop(attempts, w);
        var rest := RunLoop(attempts[1..], w1);
        assert r == rest.(calls := [c] + rest.calls);
        assert Accepted(r) == Accepted(rest) + 1;
        assert attempts[Accepted(r)..] == attempts[1..][Accepted(rest)..];
        if Accepted(rest) < |attempts| - 1 {
          assert attempts[Accepted(r)] == attempts[1..][Accepted(rest)];
        }
      }
    }
  }

  /** A run prefixed by installs made on earlier turns of the loop. */
  function Prepend(calls: seq<Call>, r: Run): Run {
    r.(calls := calls + r.calls)
  }

  /** One turn of the loop, for an attempt whose message names a module. */
  lemma RetryTurn(attempts: seq<Attempt>, k: nat, w: World, name: string)
    requires k < |attempts| && attempts[k].ModuleNotFound?
    requires SecondField(attempts[k].message) == Some(name)
    ensures RunLoop(attempts[k..], w) ==
              if PipInstall(name) in w.rejects
              then Run(Raised(InstallFailed(PipInstall(name))), [PipInstall(name)], w)
              else Prepend([PipInstall(name)], RunLoop(attempts[k + 1..], After(w, PipInstall(name))))
  {
    assert attempts[k..][0] == attempts[k];
    assert attempts[k..][1..] == attempts[k + 1..];
  }

  /** One turn of the loop, for an attempt that ends the run without installing. */
  lemma StopTurn(attempts: seq<Attempt>, k: nat, w: World)
    requires k < |attempts|
    ensures attempts[k] == Exited ==> RunLoop(attempts[k..], w) == Run(Finished, [], w)
    ensures attempts[k].ProcessError? ==>
              RunLoop(attempts[k..], w) == Run(Raised(ScriptFailed(attempts[k].code)), [], w)
    ensures attempts[k].ModuleNotFound? && SecondField(attempts[k].message) == None ==>
              RunLoop(attempts[k..], w) == Run(Raised(IndexError(attempts[k].message)), [], w)
  {
    assert attempts[k..][0] == attempts[k];
  }

  lemma PrependTwice(a: seq<Call>, b: seq<Call>, r: Run)
    ensures Prepend(a, Prepend(b, r)) == Prepend(a + b, r)
  {
    assert a + (b + r.calls) == (a + b) + r.calls;
  }

  /** `run_script(script_name)`: the `while True` loop, turned once per
      supplied attempt. */
  method RunScript(pm: PackageManager, attempts: seq<Attempt>) returns (verdict: Verdict)
    modifies pm
    ensures var r := RunLoop(attempts, old(pm.world));
            verdict == r.verdict && pm.world == r.world && pm.log == old(pm.log) + r.calls
  {
    ghost var r0 := RunLoop(attempts, pm.world);
    ghost var total := Prepend(pm.log, r0);
    assert attempts[0..] == attempts;
    var k := 0;
    while k < |attempts|
      invariant 0 <= k <= |attempts|
      invariant total == Prepend(pm.log, RunLoop(attempts[k..], pm.world))
    {
      StopTurn(attempts, k, pm.world);
      match attempts[k]
      case Exited =>
        verdict := Finished;
        return;
      case ProcessError(code) =>
        verdict := Raised(ScriptFailed(code));
        return;
      case ModuleNotFound(message) =>
        var missing := SecondField(message);
        if missing.None? {
          verdict := Raised(IndexError(message));
          return;
        }
        var name := missing.value;
        ghost var w := pm.world;
        ghost var log := pm.log;
        RetryTurn(attempts, k, w, name);
        var ok := pm.Invoke(PipInstall(name));
        if !ok {
          verdict := Raised(InstallFailed(PipInstall(name)));
          return;
        }
        PrependTwice(log, [PipInstall(name)], RunLoop(attempts[k + 1..], pm.world));
      k := k + 1;
    }
    verdict := OutOfAttempts;
  }

  /** A clean run after one missing module: the quoted name is installed
      once and the second attempt finishes with the module in place. */
  lemma SingleRepair(name: string, w: World)
    requires '\'' !in name && '=' !in name && PipInstall(name) !in w.rejects
    ensures var r := RunLoop([ModuleNotFound("No module named '" + name + "'"), Exited], w);
            r.verdict == Finished && r.calls == [PipInstall(name)]
            && name in r.world.installed
  {
    var m := "No module named '" + name + "'";
    assert m == "No module named " + "'" + name + "'" + "";
    SecondFieldOf("No module named ", name, "");
    PackageNameOfSpecifier(name, "");
    assert [ModuleNotFound(m), Exited][1..] == [Exited];
  }

  /** The loop has no retry limit and does not look at what is already
      installed: as long as the script keeps reporting the same missing
      module, every turn installs it again. */
  lemma {:induction false} RetriesUnbounded(name: string, n: nat, w: World)
    requires '\'' !in name && PipInstall(name) !in w.rejects
    ensures var r := RunLoop(seq(n, _ => ModuleNotFound("No module named '" + name + "'")), w);
            r.verdict == OutOfAttempts && r.calls == seq(n, _ => PipInstall(name))
  {
    var m := "No module named '" + name + "'";
    assert m == "No module named " + "'" + name + "'" + "";
    SecondFieldOf("No module named ", name, "");
    if n > 0 {
      var attempts := seq(n, _ => ModuleNotFound(m));
      assert attempts[1..] == seq(n - 1, _ => ModuleNotFound(m));
      RetriesUnbounded(name, n - 1, After(w, PipInstall(name)));
      assert seq(n, _ => PipInstall(name)) == [PipInstall(name)] + seq(n - 1, _ => PipInstall(name));
    }
  }

  // ---------------------------------------------------------------------
  // smart_import

  /** How `smart_import` ends: the module is returned, the install fails
      (`CalledProcessError`), or the second import still finds no module. */
  datatype ImportEnd = Loaded | InstallRejected(call: Call) | StillMissing(name: string)

  datatype Import = Import(end: ImportEnd, calls: seq<Call>, world: World)

  /** `smart_import(module_name)` in world `w`: import; on failure install
      the name once and import again. */
  function ImportOf(name: string, w: World): Import {
    if Imports(w, name) then Import(Loaded, [], Imported(w, name))
    else
      var c := PipInstall(name);
      if c in w.rejects then Import(InstallRejected(c), [c], w)
      else
        var w' := After(w, c);
        Import(if Imports(w', name) then Loaded else StillMissing(name), [c], Imported(w', name))
  }

  /** `smart_import` issues at most one call, and one exactly when the module
      does not import: `pip install` of the module name itself. The module
      loads when it already imported, or when the install was accepted and
      provides that name, which it does for every name without `=`; a
      loaded module stays cached in the process. A rejected install ends
      the call there (`CalledProcessError`), before the second import, and
      changes nothing; an accepted one adds the name it provides to disk. */
  lemma ImportOfShape(name: string, w: World)
    ensures var r := ImportOf(name, w);
            && |r.calls| <= 1
            && (r.calls == [] <==> Imports(w, name))
            && (r.calls != [] ==> r.calls == [PipInstall(name)])
            && (r.end == Loaded <==>
                  Imports(w, name) || (PipInstall(name) !in w.rejects && PackageName(name) == name))
            && (r.end == Loaded ==> name in r.world.loaded)
            && (r.end.InstallRejected? <==> !Imports(w, name) && PipInstall(name) in w.rejects)
            && r.world.rejects == w.rejects
            && r.world.installed ==
                 w.installed + (if !Imports(w, name) && PipInstall(name) !in w.rejects then {PackageName(name)} else {})
            && r.world.loaded == w.loaded + (if r.end == Loaded then {name} else {})
            && ('=' !in name && PipInstall(name) !in w.rejects ==> r.end == Loaded)
            && (r.end.InstallRejected? ==> PipInstall(name) in w.rejects && r.world == w)
  {
    if '=' !in name {
      PackageNameOfSpecifier(name, "");
    }
  }

  /** `smart_import(module_name)`. */
  method SmartImport(pm: PackageManager, name: string) returns (end: ImportEnd)
    modifies pm
    ensures var r := ImportOf(name, old(pm.world));
            end == r.end && pm.world == r.world && pm.log == old(pm.log) + r.calls
  {
    var present := pm.IsInstalled(name);
    if present {
      return Loaded;
    }
    var ok := pm.Invoke(PipInstall(name));
    if !ok {
      return InstallRejected(PipInstall(name));
    }
    present := pm.IsInstalled(name);
    end := if present then Loaded else StillMissing(name);
  }
}
