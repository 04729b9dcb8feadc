/** The outside world the tool talks to, as an injected fake: the names
    importable from disk, the modules this process has already imported
    (what `is_installed`, mydeps.py:12-18, and `importlib.import_module`
    consult first), and the installer calls that exit non-zero
    (`subprocess.check_call` raising `CalledProcessError`). */
module Packages {
  import opened Manifest

  /** One `pip` invocation: `pip install <arg>` or `pip uninstall -y <arg>`. */
  datatype Call = PipInstall(arg: string) | PipUninstall(arg: string)

  /** `installed`: the names that can be imported from disk; `loaded`: the
      modules already imported by this process (`sys.modules`); `rejects`:
      the calls the installer fails. */
  datatype World = World(installed: set<string>, loaded: set<string>, rejects: set<Call>)

  /** Whether importing `name` succeeds in this process: a module imported
      before is answered from the module cache, any other must be on disk. */
  predicate Imports(w: World, name: string) {
    name in w.loaded || name in w.installed
  }

  /** The world after an import of `name`: a successful import leaves the
      module in the cache, a failed one changes nothing. */
  function Imported(w: World, name: string): World {
    if Imports(w, name) then w.(loaded := w.loaded + {name}) else w
  }

  /** What an accepted call does to the fake world: an install makes the
      package name of its argument importable, an uninstall removes the name
      from disk. `pip` runs as a child process, so this process's module
      cache is left as it was. */
  function After(w: World, c: Call): World {
    match c
    case PipInstall(arg) => w.(installed := w.installed + {PackageName(arg)})
    case PipUninstall(arg) => w.(installed := w.installed - {arg})
  }

  /** The package environment, with a log of every installer call issued. */
  class PackageManager {
    var world: World
    var log: seq<Call>

    constructor (w: World)
      ensures world == w && log == []
    {
      world := w;
      log := [];
    }

    /** `is_installed(package)`: whether `__import__(package)` succeeds; a
        module it finds stays imported for the rest of the process. */
    method IsInstalled(name: string) returns (present: bool)
      modifies this
      ensures present <==> name in old(world).loaded || name in old(world).installed
      ensures world.loaded == if present then old(world).loaded + {name} else old(world).loaded
      ensures world.installed == old(world).installed && world.rejects == old(world).rejects
      ensures log == old(log)
    {
      present := Imports(world, name);
      if present {
        world := world.(loaded := world.loaded + {name});
      }
    }

    /** `subprocess.check_call([... "pip", ...])`: the call is logged; `ok` is
        false when the installer exits non-zero, and then nothing changes. */
    method Invoke(c: Call) returns (ok: bool)
      modifies this
      ensures log == old(log) + [c]
      ensures ok <==> c !in old(world).rejects
      ensures world == if ok then After(old(world), c) else old(world)
    {
      log := log + [c];
      ok := c !in world.rejects;
      if ok {
        world := After(world, c);
      }
    }
  }
}
