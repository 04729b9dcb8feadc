/** `install_from_file` and `uninstall_from_file` (mydeps.py:20-50): walk the
    manifest lines in order and, for each entry, ask whether its package name
    is installed and either skip it or issue exactly one installer call. */
module Drivers {
  import opened Wrappers
  import opened Text
  import opened Manifest
  import opened Packages

  datatype Command = Install | Uninstall

  /** What happens for one entry: a skip notice naming the package, or one
      installer call. */
  datatype Step = Skip(name: string) | Issue(call: Call)

  /** How a manifest command ends: it went through every line, the manifest
      file could not be opened (`FileNotFoundError`, reported and swallowed),
      or an installer call failed and its `CalledProcessError` escaped. */
  datatype Outcome = Completed | FileMissing | Raised(call: Call)

  /** The steps taken, the installer calls among them, the world afterwards,
      and the outcome. `calls` is kept beside `steps`, rather than computed
      from them, so that the loop can match the log call by call as it
      issues them; `PassCalls` shows it equals `Calls(steps)`. */
  datatype Pass = Pass(steps: seq<Step>, calls: seq<Call>, world: World, outcome: Outcome)

  /** The decision for one entry `dep` in world `w`: install skips a name
      that imports and installs the full specifier otherwise; uninstall
      removes a name that imports by its bare name and skips one that does not. */
  function Decide(cmd: Command, spec: Specifier, w: World): Step {
    match cmd
    case Install =>
      if Imports(w, spec.name) then Skip(spec.name) else Issue(PipInstall(spec.raw))
    case Uninstall =>
      if Imports(w, spec.name) then Issue(PipUninstall(spec.name)) else Skip(spec.name)
  }

  /** The world after a step that went through, from the world `w` its
      presence check left. */
  function Settle(s: Step, w: World): World {
    if s.Skip? then w else After(w, s.call)
  }

  /** The installer call a step issues, if any. */
  function Issued(s: Step): seq<Call> {
    if s.Issue? then [s.call] else []
  }

  function Cons(s: Step, p: Pass): Pass {
    p.(steps := [s] + p.steps, calls := Issued(s) + p.calls)
  }

  /** Both commands over the entries of a manifest, in order: each entry is
      decided against the world as the earlier checks and calls left it, and
      the first failing installer call ends the command. */
  function Process(cmd: Command, es: seq<Specifier>, w: World): Pass
    decreases |es|
  {
    if es == [] then Pass([], [], w, Completed)
    else
      var step := Decide(cmd, es[0], w);
      var w1 := Imported(w, es[0].name);
      if step.Issue? && step.call in w.rejects then Pass([step], [step.call], w1, Raised(step.call))
      else Cons(step, Process(cmd, es[1..], Settle(step, w1)))
  }

  /** A whole command: `file` is the manifest's lines, or None when it does not exist. */
  function RunManifest(cmd: Command, file: Option<seq<string>>, w: World): Pass {
    match file
    case None => Pass([], [], w, FileMissing)
    case Some(lines) => Process(cmd, Entries(lines), w)
  }

  /** The installer calls among `steps`, in order. */
  function Calls(steps: seq<Step>): seq<Call>
  {
    if steps == [] then [] else Issued(steps[0]) + Calls(steps[1..])
  }

  // ---------------------------------------------------------------------
  // The reference description of a walk, entry by entry.

  /** Entry `k` is decided by whether its name imports at that point. For
      install, a name imports when it did at the start or an earlier entry
      with the same name installed it. For uninstall, a name imports exactly
      when it did at the start: an earlier uninstall of the same name removes
      it from disk, but the module its check imported stays cached in this
      process, so a repeated name is uninstalled again. */
  function Expected(cmd: Command, es: seq<Specifier>, k: nat, w: World): Step
    requires k < |es|
  {
    var name := es[k].name;
    match cmd
    case Install =>
      if Imports(w, name) || name in Names(es[..k]) then Skip(name) else Issue(PipInstall(es[k].raw))
    case Uninstall =>
      if Imports(w, name) then Issue(PipUninstall(name)) else Skip(name)
  }

  /** The names on disk after the listed names were installed / uninstalled
      from world `w`: install leaves out the names the process had already
      imported, since it skips those without installing them. */
  function Settled(cmd: Command, w: World, names: set<string>): set<string> {
    match cmd
    case Install => w.installed + (names - w.loaded)
    case Uninstall => w.installed - names
  }

  /** Whether the presence check before step `s` found the module: install
      skips exactly those, uninstall acts on exactly those. */
  predicate Hit(cmd: Command, s: Step) {
    if cmd == Install then s.Skip? else s.Issue?
  }

  /** The names whose presence check succeeded, over `steps` taken for the
      leading entries of `es`: the modules the command left imported. */
  function HitNames(cmd: Command, es: seq<Specifier>, steps: seq<Step>): set<string>
    requires |steps| <= |es|
  {
    if steps == [] then {}
    else (if Hit(cmd, steps[0]) then {es[0].name} else {}) + HitNames(cmd, es[1..], steps[1..])
  }

  /** How many steps took effect: all of them, except a failing last call. */
  function Acted(p: Pass): nat {
    if p.outcome.Raised? && |p.steps| > 0 then |p.steps| - 1 else |p.steps|
  }

  /** The shape of a command over entries `es`: one step per entry in order,
      each as `Expected` says, stopping right after the first failing call,
      every call before it accepted (a rejected call is not caught), with
      the disk left as the calls that took effect made it and the
      module cache holding every module a check found. */
  predicate Follows(cmd: Command, es: seq<Specifier>, w: World, p: Pass) {
    && |p.steps| <= |es|
    && (forall k | 0 <= k < |p.steps| :: p.steps[k] == Expected(cmd, es, k, w))
    && (p.outcome == Completed || p.outcome.Raised?)
    && (p.outcome == Completed ==> |p.steps| == |es|)
    && (p.outcome.Raised? ==>
          |p.steps| > 0 && p.steps[|p.steps| - 1] == Issue(p.outcome.call)
          && p.outcome.call in w.rejects)
    && (forall k | 0 <= k < Acted(p) :: p.steps[k].Skip? || p.steps[k].call !in w.rejects)
    && p.world.installed == Settled(cmd, w, Names(es[..Acted(p)]))
    && p.world.loaded == w.loaded + HitNames(cmd, es, p.steps)
    && p.world.rejects == w.rejects
  }

  lemma NamesPrefix(es: seq<Specifier>, k: nat)
    requires 1 <= k <= |es|
    ensures Names(es[..k]) == {es[0].name} + Names(es[1..][..k - 1])
  {
    assert es[..k][1..] == es[1..][..k - 1];
  }

  lemma {:induction false} NameIn(es: seq<Specifier>, k: nat)
    requires k < |es|
    ensures es[k].name in Names(es)
  {
    if k > 0 {
      NameIn(es[1..], k - 1);
    }
  }

  /** Specifiers as `Entries` reads them: each name is its line's package name. */
  predicate Parsed(es: seq<Specifier>) {
    forall k | 0 <= k < |es| :: es[k].name == PackageName(es[k].raw)
  }

  /** `Process` agrees with the entry-by-entry description `Expected`. */
  lemma {:induction false} ProcessFollows(cmd: Command, es: seq<Specifier>, w: World)
    requires Parsed(es)
    ensures Follows(cmd, es, w, Process(cmd, es, w))
    decreases |es|
  {
    var p := Process(cmd, es, w);
    if es != [] {
      var step := Decide(cmd, es[0], w);
      var w1 := Imported(w, es[0].name);
      assert step == Expected(cmd, es, 0, w) by {
        assert es[..0] == [];
      }
      if step.Issue? && step.call in w.rejects {
        assert p == Pass([step], [step.call], w1, Raised(step.call));
        assert es[..0] == [];
        assert [step][1..] == [];
      } else {
        var rest := Process(cmd, es[1..], Settle(step, w1));
        assert p == Cons(step, rest);
        assert Parsed(es[1..]) by {
          forall k | 0 <= k < |es[1..]| ensures es[1..][k].name == PackageName(es[1..][k].raw) {
            assert es[1..][k] == es[k + 1];
          }
        }
        ProcessFollows(cmd, es[1..], Settle(step, w1));
        ShiftFollows(cmd, es, w, step, rest);
      }
    }
  }

  /** The inductive step of `ProcessFollows`: prepending the first entry's step. */
  lemma ShiftFollows(cmd: Command, es: seq<Specifier>, w: World, step: Step, rest: Pass)
    requires es != [] && Parsed(es)
    requires step == Decide(cmd, es[0], w)
    requires step.Skip? || step.call !in w.rejects
    requires Follows(cmd, es[1..], Settle(step, Imported(w, es[0].name)), rest)
    ensures Follows(cmd, es, w, Cons(step, rest))
  {
    var w1 := Settle(step, Imported(w, es[0].name));
    var p := Cons(step, rest);
    assert p.steps[0] == Expected(cmd, es, 0, w) by {
      assert es[..0] == [];
    }
    forall k | 1 <= k < |p.steps| ensures p.steps[k] == Expected(cmd, es, k, w) {
      assert p.steps[k] == rest.steps[k - 1];
      ShiftExpected(cmd, es, w, step, k);
    }
    assert Acted(p) == Acted(rest) + 1;
    ShiftWorld(cmd, es, w, step, Names(es[1..][..Acted(rest)]));
    forall k | 1 <= k < Acted(p) ensures p.steps[k].Skip? || p.steps[k].call !in w.rejects {
      assert p.steps[k] == rest.steps[k - 1];
    }
    NamesPrefix(es, Acted(p));
    assert p.steps[1..] == rest.steps;
  }

  /** After the first entry's step, entry `k` is decided as it would be from
      the start. */
  lemma ShiftExpected(cmd: Command, es: seq<Specifier>, w: World, step: Step, k: nat)
    requires 1 <= k < |es| && Parsed(es)
    requires step == Decide(cmd, es[0], w)
    ensures Expected(cmd, es[1..], k - 1, Settle(step, Imported(w, es[0].name))) == Expected(cmd, es, k, w)
  {
    assert es[1..][k - 1] == es[k];
    NamesPrefix(es, k);
    assert step.Issue? && cmd == Install ==> PackageName(step.call.arg) == es[0].name;
  }

  /** The first entry's step, followed by the rest, leaves the disk and the
      cache as if the whole list of names had been acted on from the start. */
  lemma ShiftWorld(cmd: Command, es: seq<Specifier>, w: World, step: Step, names: set<string>)
    requires es != [] && Parsed(es)
    requires step == Decide(cmd, es[0], w)
    ensures var w1 := Settle(step, Imported(w, es[0].name));
            && w1.rejects == w.rejects
            && Settled(cmd, w1, names) == Settled(cmd, w, {es[0].name} + names)
            && w1.loaded == w.loaded + (if Hit(cmd, step) then {es[0].name} else {})
  {
    assert step.Issue? && cmd == Install ==> PackageName(step.call.arg) == es[0].name;
  }

  /** Both commands, over any manifest file: exactly one step per entry line
      (blank and `#` lines produce none), in file order, each decided against
      the world as the earlier entries left it; the command stops right after
      the first failing installer call, and the world ends with the acted-on
      names installed (install) or removed (uninstall). The installer calls
      issued are exactly the calls among the steps, in order. A missing file
      issues nothing and changes nothing. */
  lemma ManifestFollowsEntries(cmd: Command, file: Option<seq<string>>, w: World)
    ensures var p := RunManifest(cmd, file, w);
            && p.calls == Calls(p.steps)
            && if file == None then p == Pass([], [], w, FileMissing)
               else Follows(cmd, Entries(file.value), w, p)
  {
    if file != None {
      EntriesAreParsed(file.value);
      ProcessFollows(cmd, Entries(file.value), w);
      PassCalls(cmd, Entries(file.value), w);
    }
  }

  /** Install passes the whole stripped entry line, version pin included;
      uninstall passes only the bare package name, which never holds `==`. */
  lemma CallArguments(cmd: Command, lines: seq<string>, w: World)
    ensures var es := Entries(lines);
            var p := RunManifest(cmd, Some(lines), w);
            && |p.steps| <= |es|
            && forall k | 0 <= k < |p.steps| && k < |es| && p.steps[k].Issue? ::
              match cmd
              case Install => p.steps[k].call == PipInstall(es[k].raw)
              case Uninstall =>
                p.steps[k].call == PipUninstall(es[k].name) && !Contains(es[k].name, "==")
                && es[k].name <= es[k].raw
  {
    var es := Entries(lines);
    var p := RunManifest(cmd, Some(lines), w);
    EntriesAreParsed(lines);
    ProcessFollows(cmd, es, w);
    forall k | 0 <= k < |p.steps| && k < |es| && p.steps[k].Issue? && cmd == Uninstall
      ensures !Contains(es[k].name, "==") && es[k].name <= es[k].raw
    {
      PackageNameSplits(es[k].raw);
    }
  }

  /** A manifest of blank and comment lines only has no entries. */
  lemma {:induction false} NoEntries(lines: seq<string>)
    requires forall i | 0 <= i < |lines| :: !IsEntry(Strip(lines[i]))
    ensures Entries(lines) == []
    decreases |lines|
  {
    if lines != [] {
      assert forall i | 0 <= i < |lines[1..]| :: lines[1..][i] == lines[i + 1];
      NoEntries(lines[1..]);
    }
  }

  /** A manifest of blank and comment lines only issues no call and changes nothing. */
  lemma NoEntriesNoCalls(cmd: Command, lines: seq<string>, w: World)
    requires forall i | 0 <= i < |lines| :: !IsEntry(Strip(lines[i]))
    ensures RunManifest(cmd, Some(lines), w) == Pass([], [], w, Completed)
  {
    NoEntries(lines);
  }

  /** A process that imported only modules found on disk. */
  predicate OnDisk(w: World) {
    w.loaded <= w.installed
  }

  lemma RepeatOnlySkipsEntries(cmd: Command, es: seq<Specifier>, w: World)
    requires Parsed(es) && OnDisk(w)
    requires Process(cmd, es, w).outcome == Completed
    ensures var w' := Process(cmd, es, w).world;
            var q := Process(cmd, es, w'.(loaded := {}));
            q.outcome == Completed && q.calls == []
            && q.world.installed == w'.installed && q.world.rejects == w'.rejects
            && forall k | 0 <= k < |q.steps| :: q.steps[k].Skip?
  {
    var p := Process(cmd, es, w);
    ProcessFollows(cmd, es, w);
    assert es[..|es|] == es;
    var w' := p.world;
    assert w'.installed == Settled(cmd, w, Names(es));
    var w2 := w'.(loaded := {});
    var q := Process(cmd, es, w2);
    ProcessFollows(cmd, es, w2);
    forall k | 0 <= k < |q.steps| ensures q.steps[k].Skip? {
      NameIn(es, k);
      assert q.steps[k] == Expected(cmd, es, k, w2);
    }
    assert q.outcome == Completed by {
      if |q.steps| > 0 {
        assert q.steps[|q.steps| - 1].Skip?;
      }
    }
    assert Acted(q) == |es|;
    assert q.world.installed == Settled(cmd, w2, Names(es));
    PassCalls(cmd, es, w2);
    SkipsIssueNothing(q.steps);
  }

  /** Steps that all skip issue no call. */
  lemma {:induction false} SkipsIssueNothing(steps: seq<Step>)
    requires forall k | 0 <= k < |steps| :: steps[k].Skip?
    ensures Calls(steps) == []
  {
    if steps != [] {
      assert forall k | 0 <= k < |steps[1..]| :: steps[1..][k] == steps[k + 1];
      SkipsIssueNothing(steps[1..]);
    }
  }

  /** Running a completed command again, as a new process, on the disk it
      left only skips: a second install (or uninstall) of the same manifest
      issues no call and leaves the disk as it is. The first run must start
      as a process does, having imported only modules found on disk. */
  lemma RepeatOnlySkips(cmd: Command, lines: seq<string>, w: World)
    requires OnDisk(w)
    requires RunManifest(cmd, Some(lines), w).outcome == Completed
    ensures var w' := RunManifest(cmd, Some(lines), w).world;
            var q := RunManifest(cmd, Some(lines), w'.(loaded := {}));
            q.outcome == Completed && q.calls == []
            && q.world.installed == w'.installed && q.world.rejects == w'.rejects
            && forall k | 0 <= k < |q.steps| :: q.steps[k].Skip?
  {
    EntriesAreParsed(lines);
    RepeatOnlySkipsEntries(cmd, Entries(lines), w);
  }

  /** Uninstall finds a name again after removing it: the presence check
      of the first line imported the module, and the cache answers the
      check of a second line naming the same package, so it is uninstalled
      twice. */
  lemma RepeatedNameUninstalledTwice(name: string, version: string, w: World)
    requires name != [] && name[0] != '#' && '=' !in name
    requires !IsSpace(name[0]) && !IsSpace(name[|name| - 1])
    requires version == [] || !IsSpace(version[|version| - 1])
    requires Imports(w, name) && PipUninstall(name) !in w.rejects
    ensures var p := RunManifest(Uninstall, Some([name, name + "==" + version]), w);
            p.outcome == Completed && p.calls == [PipUninstall(name), PipUninstall(name)]
            && name !in p.world.installed
  {
    var pin := name + "==" + version;
    StripKeeps(name);
    StripKeeps(pin);
    PackageNameOfSpecifier(name, version);
    assert IsEntry(name) && IsEntry(pin) by {
      assert pin[0] == name[0];
    }
    var lines := [name, pin];
    assert Entries(lines[2..]) == [] by {
      assert lines[2..] == [];
    }
    assert Entries(lines[1..]) == [Specifier(name, pin)] by {
      assert lines[1..][0] == pin && lines[1..][1..] == lines[2..];
    }
    var es := Entries(lines);
    assert es == [Specifier(name, name), Specifier(name, pin)];
    var c := PipUninstall(name);
    var w1 := After(Imported(w, name), c);
    assert Imports(w1, name) && c !in w1.rejects;
    var w2 := After(Imported(w1, name), c);
    assert es[1..][1..] == [];
    assert Process(Uninstall, es[1..], w1) == Pass([Issue(c)], [c], w2, Completed);
    assert Process(Uninstall, es, w) == Pass([Issue(c), Issue(c)], [c, c], w2, Completed);
  }

  // ---------------------------------------------------------------------
  // The two commands as the source writes them: a loop over the lines.

  /** A pass preceded by the steps and calls of earlier turns of the loop. */
  function Chain(prefix: seq<Step>, calls: seq<Call>, p: Pass): Pass {
    p.(steps := prefix + p.steps, calls := calls + p.calls)
  }

  lemma ChainCons(prefix: seq<Step>, calls: seq<Call>, s: Step, p: Pass)
    ensures Chain(prefix, calls, Cons(s, p)) == Chain(prefix + [s], calls + Issued(s), p)
  {
    assert prefix + ([s] + p.steps) == (prefix + [s]) + p.steps;
    assert calls + (Issued(s) + p.calls) == (calls + Issued(s)) + p.calls;
  }

  /** One turn of the loop: line `i` either is not an entry, or contributes
      the step `Decide` gives for its specifier. */
  lemma ProcessLine(cmd: Command, lines: seq<string>, i: nat, w: World)
    requires i < |lines|
    ensures var dep := Strip(lines[i]);
            var rest := Entries(lines[i + 1..]);
            Process(cmd, Entries(lines[i..]), w) ==
              if !IsEntry(dep) then Process(cmd, rest, w)
              else
                var step := Decide(cmd, Specifier(PackageName(dep), dep), w);
                var w1 := Imported(w, PackageName(dep));
                if step.Issue? && step.call in w.rejects then Pass([step], [step.call], w1, Raised(step.call))
                else Cons(step, Process(cmd, rest, Settle(step, w1)))
  {
    var dep := Strip(lines[i]);
    var rest := Entries(lines[i + 1..]);
    EntriesLine(lines, i);
    if IsEntry(dep) {
      var spec := Specifier(PackageName(dep), dep);
      assert Entries(lines[i..]) == [spec] + rest;
      ProcessCons(cmd, spec, rest, w);
    } else {
      assert Entries(lines[i..]) == rest;
    }
  }

  lemma EntriesLine(lines: seq<string>, i: nat)
    requires i < |lines|
    ensures var dep := Strip(lines[i]);
            Entries(lines[i..]) ==
              (if IsEntry(dep) then [Specifier(PackageName(dep), dep)] else []) + Entries(lines[i + 1..])
  {
    assert lines[i..][0] == lines[i];
    assert lines[i..][1..] == lines[i + 1..];
  }

  lemma ProcessCons(cmd: Command, spec: Specifier, rest: seq<Specifier>, w: World)
    ensures Process(cmd, [spec] + rest, w) ==
              var step := Decide(cmd, spec, w);
              var w1 := Imported(w, spec.name);
              if step.Issue? && step.call in w.rejects then Pass([step], [step.call], w1, Raised(step.call))
              else Cons(step, Process(cmd, rest, Settle(step, w1)))
  {
    assert ([spec] + rest)[0] == spec;
    assert ([spec] + rest)[1..] == rest;
  }

  /** The calls of a pass are the calls among its steps. */
  lemma {:induction false} PassCalls(cmd: Command, es: seq<Specifier>, w: World)
    ensures var p := Process(cmd, es, w); p.calls == Calls(p.steps)
    decreases |es|
  {
    if es != [] {
      var step := Decide(cmd, es[0], w);
      if step.Skip? || step.call !in w.rejects {
        PassCalls(cmd, es[1..], Settle(step, Imported(w, es[0].name)));
      }
    }
  }

  /** A turn of the loop over a blank or comment line leaves the rest of the
      command as it was. */
  lemma PassOverLine(cmd: Command, lines: seq<string>, i: nat, w: World, steps: seq<Step>, calls: seq<Call>, total: Pass)
    requires i < |lines| && !IsEntry(Strip(lines[i]))
    requires total == Chain(steps, calls, Process(cmd, Entries(lines[i..]), w))
    ensures total == Chain(steps, calls, Process(cmd, Entries(lines[i + 1..]), w))
  {
    ProcessLine(cmd, lines, i, w);
  }

  /** A turn of the loop over an entry line whose step goes through: the
      step is recorded and the rest of the command starts from the world it
      leaves. */
  lemma TakeLine(cmd: Command, lines: seq<string>, i: nat, w: World, steps: seq<Step>, calls: seq<Call>, total: Pass, step: Step)
    requires i < |lines| && IsEntry(Strip(lines[i]))
    requires step == Decide(cmd, Specifier(PackageName(Strip(lines[i])), Strip(lines[i])), w)
    requires step.Skip? || step.call !in w.rejects
    requires total == Chain(steps, calls, Process(cmd, Entries(lines[i..]), w))
    ensures total == Chain(steps + [step], calls + Issued(step),
                           Process(cmd, Entries(lines[i + 1..]), Settle(step, Imported(w, PackageName(Strip(lines[i]))))))
  {
    ProcessLine(cmd, lines, i, w);
    ChainCons(steps, calls, step, Process(cmd, Entries(lines[i + 1..]), Settle(step, Imported(w, PackageName(Strip(lines[i]))))));
  }

  /** A turn of the loop over an entry line whose call fails: the command
      ends there, with that call as its last step. */
  lemma FailLine(cmd: Command, lines: seq<string>, i: nat, w: World, steps: seq<Step>, calls: seq<Call>, total: Pass, step: Step)
    requires i < |lines| && IsEntry(Strip(lines[i]))
    requires step == Decide(cmd, Specifier(PackageName(Strip(lines[i])), Strip(lines[i])), w)
    requires step.Issue? && step.call in w.rejects
    requires total == Chain(steps, calls, Process(cmd, Entries(lines[i..]), w))
    ensures total == Pass(steps + [step], calls + [step.call], Imported(w, PackageName(Strip(lines[i]))), Raised(step.call))
  {
    ProcessLine(cmd, lines, i, w);
  }

  /** The body of the loop for one entry line `dep`: ask whether its name
      is installed, then skip it or issue the one call `Decide` gives. `ok`
      is false when that call fails. */
  method ActOn(pm: PackageManager, cmd: Command, dep: string) returns (step: Step, ok: bool)
    modifies pm
    ensures step == Decide(cmd, Specifier(PackageName(dep), dep), old(pm.world))
    ensures ok <==> step.Skip? || step.call !in old(pm.world).rejects
    ensures var checked := Imported(old(pm.world), PackageName(dep));
            pm.world == if ok then Settle(step, checked) else checked
    ensures pm.log == old(pm.log) + Issued(step)
  {
    var name := PackageName(dep);
    var present := pm.IsInstalled(name);
    match cmd
    case Install =>
      if present {
        step, ok := Skip(name), true;
      } else {
        step := Issue(PipInstall(dep));
        ok := pm.Invoke(PipInstall(dep));
      }
    case Uninstall =>
      if present {
        step := Issue(PipUninstall(name));
        ok := pm.Invoke(PipUninstall(name));
      } else {
        step, ok := Skip(name), true;
      }
  }

  /** The loop both commands share: open the manifest, then act on its
      entry lines in order until one call fails. */
  method RunFile(pm: PackageManager, cmd: Command, file: Option<seq<string>>)
    returns (steps: seq<Step>, outcome: Outcome)
    modifies pm
    ensures var p := RunManifest(cmd, file, old(pm.world));
            steps == p.steps && outcome == p.outcome && pm.world == p.world
            && pm.log == old(pm.log) + p.calls
  {
    steps := [];
    if file == None {
      outcome := FileMissing;
      return;
    }
    var lines := file.value;
    ghost var p0 := Process(cmd, Entries(lines), pm.world);
    ghost var total := Chain([], pm.log, p0);
    assert [] + p0.steps == p0.steps;
    assert lines[0..] == lines;
    var i := 0;
    while i < |lines|
      invariant 0 <= i <= |lines|
      invariant total == Chain(steps, pm.log, Process(cmd, Entries(lines[i..]), pm.world))
    {
      var dep := Strip(lines[i]);
      if IsEntry(dep) {
        ghost var w := pm.world;
        ghost var log := pm.log;
        var step, ok := ActOn(pm, cmd, dep);
        if !ok {
          FailLine(cmd, lines, i, w, steps, log, total, step);
          steps := steps + [step];
          outcome := Raised(step.call);
          return;
        }
        TakeLine(cmd, lines, i, w, steps, log, total, step);
        steps := steps + [step];
      } else {
        PassOverLine(cmd, lines, i, pm.world, steps, pm.log, total);
      }
      i := i + 1;
    }
    assert lines[i..] == [];
    outcome := Completed;
  }

  /** `install_from_file(filename)`. */
  method InstallFromFile(pm: PackageManager, file: Option<seq<string>>)
    returns (steps: seq<Step>, outcome: Outcome)
    modifies pm
    ensures var p := RunManifest(Install, file, old(pm.world));
            steps == p.steps && outcome == p.outcome && pm.world == p.world
            && pm.log == old(pm.log) + p.calls
  {
    steps, outcome := RunFile(pm, Install, file);
  }

  /** `uninstall_from_file(filename)`. */
  method UninstallFromFile(pm: PackageManager, file: Option<seq<string>>)
    returns (steps: seq<Step>, outcome: Outcome)
    modifies pm
    ensures var p := RunManifest(Uninstall, file, old(pm.world));
            steps == p.steps && outcome == p.outcome && pm.world == p.world
            && pm.log == old(pm.log) + p.calls
  {
    steps, outcome := RunFile(pm, Uninstall, file);
  }
}
