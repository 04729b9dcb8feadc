# mydeps: a verified model of the dependency manager's core

`mydeps.py` is a small command-line dependency manager. This project models
and proves properties of its core:

- **Manifest line handling.** Each line of a requirements manifest is
  stripped with Python's `str.strip()` (`Text.Strip`). A blank line or a
  line starting with `#` is dropped (`Manifest.IsEntry`). An entry's
  presence-check name is `dep.split("==")[0]` (`Manifest.PackageName`,
  built on `Text.Before`).
- **`install_from_file` / `uninstall_from_file`.** These walk the manifest
  lines in order. For each entry they ask whether the name is installed,
  then either skip the entry or issue exactly one `pip` call:
  - install passes the whole stripped specifier;
  - uninstall passes the bare name.
  A failing call (`CalledProcessError`) is not caught, so the command stops
  there. A missing manifest (`FileNotFoundError`) is reported and issues no
  call.
- **`run_script`.** It runs the script in a loop:
  - a clean run stops the loop;
  - a `CalledProcessError` is re-raised unchanged;
  - a `ModuleNotFoundError` makes it install `str(e).split("'")[1]`
    (`Text.SecondField`) and start again.
- **`smart_import`.** It tries an import. On failure it installs the name
  once and imports again.

The outside world is injected as a fake: `Packages.World`. It holds:
- the names importable from disk;
- the modules this process has already imported (Python's `sys.modules`);
- the set of `pip` calls that fail.

The class `Packages.PackageManager` holds that world and a log of every
`pip` call issued. Its methods `IsInstalled` (the `is_installed` oracle) and
`Invoke` (`subprocess.check_call` of `pip`) are the only operations that
read or change it. In this fake:
- an import succeeds when the module is cached or on disk, and a successful
  import leaves the module cached for the rest of the process;
- an accepted `pip install <spec>` makes `PackageName(spec)` importable from disk;
- an accepted `pip uninstall -y <name>` removes `name` from disk. `pip`
  runs as a child process, so the cache keeps the module.

The cache matters for `uninstall_from_file`. Once a presence check has
imported a module, every later check of that name in the same run still
succeeds. So a name listed twice is uninstalled twice
(`Drivers.RepeatedNameUninstalledTwice`).

Each imperative operation is a method proved against a pure function:
- `Drivers.RunFile` (the loop both manifest commands share) against
  `Drivers.RunManifest`;
- `Runner.RunScript` against `Runner.RunLoop`;
- `Runner.SmartImport` against `Runner.ImportOf`.

The methods' postconditions give the steps, the outcome, the new world and
the new call log. The lemmas then state what those functions promise, entry
by entry and attempt by attempt.

Three facts about the runner's code shape the model:
- The code does not classify the child's failure text. It re-raises every
  `CalledProcessError` of the script unchanged. It retries only on a
  `ModuleNotFoundError` raised by the `check_call` itself
  (mydeps.py:80-84). The attempt outcomes are modelled exactly that way.
- The module name is `split("'")[1]`, not the first quoted identifier:
  - with a single quote, that is everything after the quote;
  - with no quote at all, it raises `IndexError`.
  `Text.SecondFieldOf` and `Runner.RunLoopEnd` state both cases.
- The loop has no retry cap and no memory of what it already installed
  (`Runner.RetriesUnbounded`).

## Model

| member | source | states |
|---|---|---|
| Text.StripSpec | mydeps.py:25 | `line.strip()` leaves no whitespace (Python's `isspace` set) at either end, and yields the empty string exactly when the line is all whitespace |
| Text.StripRecoversCore | mydeps.py:25 | stripping `lead + core + trail` with whitespace-only `lead`/`trail` gives back exactly `core` |
| Text.StripIdempotent | mydeps.py:25 | stripping an already stripped line changes nothing |
| Text.BeforeSpec | mydeps.py:27 | `s.split(sep)[0]` is a prefix of `s`, `sep` starts nowhere inside it, and unless it is all of `s` the first `sep` starts right where it ends |
| Text.SecondFieldOf | mydeps.py:84 | `split("'")[1]` of `pre'field'post` and of `pre'field` is `field` when neither `pre` nor `field` holds a quote; a message with no quote has no field 1 (Python's `IndexError`) |
| Manifest.PackageNameSplits | mydeps.py:27 | the presence-check name is a prefix of the stripped specifier, contains no `==`, no `==` of the specifier starts inside it, and it is the whole specifier or stops exactly at the first `==` |
| Manifest.PackageNameOfSpecifier | mydeps.py:27 | for a name without `=`, both `name` and `name==version` check presence of `name` itself |
| Manifest.EntriesAreParsed | mydeps.py:24-27 | at most one specifier per line; each specifier's text is a stripped, non-blank, non-`#` line, and its name is that text's `split("==")[0]` |
| Manifest.EntriesFromLines | mydeps.py:24-27 | the specifiers come from the file's lines in strictly increasing line order. Specifier `k` is what its line yields: the stripped entry line with its package name. Every entry line yields one |
| Packages.PackageManager.IsInstalled | mydeps.py:12-18 | `is_installed(package)` answers whether the module is already imported or importable from disk; a module it finds stays imported, and nothing else changes |
| Packages.PackageManager.Invoke | mydeps.py:32 | one `pip` call is appended to the log; it succeeds exactly when the installer accepts it, and only a successful call changes the environment |
| Drivers.ProcessFollows | mydeps.py:24-32 | over the entries in order, step `k` is what entry `k` calls for in the world the earlier steps left behind. Install skips a name that imported at the start or was installed earlier, and otherwise installs the full specifier. Uninstall removes, by its bare name, every entry whose name imported at the start, repeated names included, and otherwise skips. The walk stops right after the first failing call, since nothing catches it, and every call before it was accepted. The disk ends with exactly the acted-on names added (except those already cached) or removed, and the cache gains exactly the names whose check succeeded |
| Drivers.ManifestFollowsEntries | mydeps.py:20-50 | either command, on any manifest file, gives one step per entry line as above, and its calls are exactly the calls among its steps; a missing file gives no step and no call and leaves the world unchanged |
| Drivers.CallArguments | mydeps.py:27-46 | every install call carries the entry's whole stripped specifier (version included); every uninstall call carries the bare name, which is a prefix of the specifier and never holds `==` |
| Drivers.NoEntriesNoCalls | mydeps.py:25-26 | a manifest of blank and `#` lines only issues no call and leaves the world as it was |
| Drivers.RepeatOnlySkips | mydeps.py:28-29 | running a completed install (or uninstall) again, as a new process, on the disk it produced only skips, issues no call (its call list is empty) and changes nothing on disk, provided the first run had imported only modules found on disk |
| Drivers.RepeatedNameUninstalledTwice | mydeps.py:41-46 | an uninstall manifest listing `name` and `name==version` for a module that imports issues `pip uninstall -y name` twice and removes it from disk |
| Drivers.PassCalls | mydeps.py:32 | the calls a manifest command issues are exactly the `Issue` steps' calls, in order |
| Drivers.ActOn | mydeps.py:28-32 | one entry: the step is the presence-based decision for the entry in the current world; the check leaves a module it found cached; the one call it may issue is logged, fails exactly when the installer rejects it, and only a successful call changes the disk |
| Drivers.RunFile | mydeps.py:22-34 | the shared loop over the lines returns the steps and outcome of `RunManifest`, leaves its world, and appends exactly its calls to the log |
| Drivers.InstallFromFile | mydeps.py:20-34 | `install_from_file` returns the steps and outcome of `RunManifest(Install, …)`, leaves its world, and appends exactly its calls to the log |
| Drivers.UninstallFromFile | mydeps.py:36-50 | `uninstall_from_file` returns the steps and outcome of `RunManifest(Uninstall, …)`, leaves its world, and appends exactly its calls to the log |
| Runner.RunLoopCalls | mydeps.py:83-87 | at most one install per attempt; install `j` is `pip install` of the name quoted in attempt `j`'s `ModuleNotFoundError`; every install but a failing last one was accepted |
| Runner.RunLoopWorld | mydeps.py:86 | after the loop the environment has gained exactly the names the accepted installs provide, and nothing else changes; the module cache is untouched |
| Runner.RunLoopEnd | mydeps.py:76-84 | the attempt after the accepted installs decides the end. The loop finishes exactly when that attempt ran cleanly. It re-raises `CalledProcessError` with the same code exactly when that attempt failed so; neither case installs anything more. It raises `IndexError` exactly when that attempt's message has no quote. A failing install is the last call. The supplied attempts run out only when every one was repaired |
| Runner.RunScript | mydeps.py:74-87 | `run_script` returns the verdict of `RunLoop`, leaves its world, and appends exactly its installs to the log |
| Runner.SingleRepair | mydeps.py:83-87 | `No module named 'x'` followed by a clean run installs `x` once and finishes with `x` importable |
| Runner.RetriesUnbounded | mydeps.py:76-87 | `n` attempts reporting the same missing module issue `n` identical installs: the loop has no cap and does not consult what is installed |
| Runner.ImportOfShape | mydeps.py:64-72 | `smart_import` issues no call exactly when the module imports, otherwise exactly `pip install <name>`. It returns the module exactly when the module imported at once, or when the install succeeded and provides that name (always so for a name without `=`); a returned module stays cached. It ends in `CalledProcessError` exactly when it had to install and the install was rejected, before the second import. The disk gains exactly the name an accepted install provides; the cache gains exactly a returned module; the rejects never change |
| Runner.SmartImport | mydeps.py:64-72 | the method returns the end of `ImportOf`, leaves its world, and appends exactly its calls to the log |

## Left out

- `generate_requirements` (mydeps.py:52-62): it only writes `pip freeze` output to a file verbatim, which is I/O with nothing to compute.
- Console output: colorama initialisation, every `print` and the message texts (mydeps.py:7-10). The model records a `Skip` step where the source prints a skip notice.
- The argparse `__main__` block (mydeps.py:89-110) is command-line dispatch only.
- `subprocess`, `pip`, `__import__` and `importlib` are foreign calls. They are replaced by the injected `World`:
  - Whether a name imports is membership in `World.loaded` (the module cache) or `World.installed` (the disk). Importing a dotted name does not also cache its parent packages.
  - Whether a `pip` call fails is membership in `World.rejects`.
  - An accepted install is assumed to make exactly `split("==")[0]` of its argument importable. A distribution whose import name differs from its package name is not modelled.
- Packages.PackageManager.IsInstalled: `__import__` failing with an `ImportError` that is not a missing module, and the `ValueError` that `__import__("")` raises, are not modelled; every name is either importable or not.
- Runner.SmartImport: a failed import is always treated as `ModuleNotFoundError`; other import errors, and the module object returned, are not modelled.
- Reading the manifest: the file arrives as its sequence of lines, or as None when it does not exist. Decoding errors and every `OSError` other than `FileNotFoundError` are not modelled.
- `check_call` raising something other than `CalledProcessError` (for example, a missing interpreter) is not modelled.
- Runner.RunScript: the `while True` loop is not claimed to terminate. Each attempt's outcome comes from a supplied sequence, one entry per turn. `OutOfAttempts` means the source would still be looping. The attempt outcomes are not derived from the world, so "the install fixed the import" is not linked to the next attempt.
- The argument lists (`sys.executable`, `-m pip`, `-y`) are abstracted to `PipInstall(arg)` / `PipUninstall(arg)`. Install never passes `-y` and uninstall always does.
