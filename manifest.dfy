/** One line of a requirements manifest: which lines are entries, and the
    package name an entry names (mydeps.py, lines 25-27 and 41-43). */
module Manifest {
  import opened Wrappers
  import opened Text

  /** A stripped line is acted on when it is non-empty and is not a `#` comment. */
  predicate IsEntry(dep: string) {
    dep != [] && !("#" <= dep)
  }

  /** `dep.split("==")[0]`: the name used for the presence check and for
      uninstalling. */
  function PackageName(dep: string): string
  {
    Before(dep, "==")
  }

  /** The package name is a prefix of the specifier, it never carries a `==`
      pin, no `==` of the specifier starts inside it, and it stops exactly
      where the first `==` begins. */
  lemma PackageNameSplits(dep: string)
    ensures var name := PackageName(dep);
            name <= dep
            && !Contains(name, "==")
            && (forall i: nat | i < |name| :: !OccursAt(dep, "==", i))
            && (name == dep || OccursAt(dep, "==", |name|))
  {
    var name := PackageName(dep);
    BeforeSpec(dep, "==");
    forall i: nat | i < |name| && OccursAt(name, "==", i) ensures OccursAt(dep, "==", i) {
      assert name[i..i + 2] == dep[i..i + 2];
    }
  }

  /** The specifier grammar `name` / `name==version`: for a name without `=`,
      the presence-check name of either form is the name itself. */
  lemma PackageNameOfSpecifier(name: string, version: string)
    requires '=' !in name
    ensures PackageName(name) == name
    ensures PackageName(name + "==" + version) == name
  {
    BeforeFirst(name, "==", version);
  }

  /** A dependency specifier read from one entry line: `raw` is the stripped
      line (passed to the installer), `name` its presence-check name. */
  datatype Specifier = Specifier(name: string, raw: string)

  /** The specifiers of a manifest's entry lines, in file order; blank and
      comment lines are dropped. */
  function Entries(lines: seq<string>): seq<Specifier>
  {
    if lines == [] then []
    else
      var dep := Strip(lines[0]);
      (if IsEntry(dep) then [Specifier(PackageName(dep), dep)] else []) + Entries(lines[1..])
  }

  /** Every specifier `Entries` yields comes from an entry line: its text is
      stripped, is not blank or a comment, and its name is its package name;
      there is at most one per line. */
  lemma {:induction false} EntriesAreParsed(lines: seq<string>)
    ensures var es := Entries(lines);
            |es| <= |lines|
            && forall k | 0 <= k < |es| ::
                 IsEntry(es[k].raw) && Strip(es[k].raw) == es[k].raw
                 && es[k].name == PackageName(es[k].raw)
  {
    if lines != [] {
      EntriesAreParsed(lines[1..]);
      StripIdempotent(lines[0]);
      var dep := Strip(lines[0]);
      var es := Entries(lines);
      if IsEntry(dep) {
        assert es == [Specifier(PackageName(dep), dep)] + Entries(lines[1..]);
        forall k | 1 <= k < |es| ensures es[k] == Entries(lines[1..])[k - 1] { }
      }
    }
  }

  /** What one line contributes: its stripped text with that text's package
      name when it is an entry line, and nothing otherwise. */
  function EntryOf(line: string): Option<Specifier> {
    var dep := Strip(line);
    if IsEntry(dep) then Some(Specifier(PackageName(dep), dep)) else None
  }

  /** The values `f` yields for the lines `xs`, in order, dropping the lines
      it yields nothing for. */
  function Keep(xs: seq<string>, f: string -> Option<Specifier>): seq<Specifier> {
    if xs == [] then []
    else (if f(xs[0]).Some? then [f(xs[0]).value] else []) + Keep(xs[1..], f)
  }

  /** `Entries` keeps what each line contributes. */
  lemma {:induction false} EntriesKeep(lines: seq<string>)
    ensures Entries(lines) == Keep(lines, EntryOf)
  {
    if lines != [] {
      EntriesKeep(lines[1..]);
    }
  }

  predicate Increasing(idx: seq<nat>) {
    forall j, k | 0 <= j < k < |idx| :: idx[j] < idx[k]
  }

  /** Line `i` of `xs` yields a value. */
  predicate YieldsAt(xs: seq<string>, f: string -> Option<Specifier>, i: nat)
    requires i < |xs|
  {
    f(xs[i]).Some?
  }

  /** Value `k` is what line `idx[k]` yields. */
  predicate Taken(xs: seq<string>, f: string -> Option<Specifier>, ys: seq<Specifier>, idx: seq<nat>) {
    |idx| == |ys| && forall k | 0 <= k < |idx| :: idx[k] < |xs| && f(xs[idx[k]]) == Some(ys[k])
  }

  /** Every line that yields a value is listed in `idx`. */
  predicate Covers(xs: seq<string>, f: string -> Option<Specifier>, idx: seq<nat>) {
    forall i: nat | i < |xs| && YieldsAt(xs, f, i) :: i in idx
  }

  /** `idx` lists, in increasing order, the lines the values `ys` come from:
      value `k` is what line `idx[k]` yields, and every line that yields a
      value is listed. */
  predicate Traces(xs: seq<string>, f: string -> Option<Specifier>, ys: seq<Specifier>, idx: seq<nat>) {
    Taken(xs, f, ys, idx) && Increasing(idx) && Covers(xs, f, idx)
  }

  /** `Keep` takes one value from each line that yields one, in line order. */
  lemma {:induction false} KeepTraced(xs: seq<string>, f: string -> Option<Specifier>)
    ensures exists idx :: Traces(xs, f, Keep(xs, f), idx)
  {
    if xs == [] {
      assert Traces(xs, f, Keep(xs, f), []);
    } else {
      KeepTraced(xs[1..], f);
      var rest := Keep(xs[1..], f);
      var tail :| Traces(xs[1..], f, rest, tail);
      KeepHead(xs, f);
      var d := if f(xs[0]).Some? then 1 else 0;
      var idx := Shifted(tail, d);
      ExtendTrace(xs, f, rest, tail, Keep(xs, f), d, idx);
    }
  }

  /** What the first line yields comes first, then the rest in order. */
  lemma KeepHead(xs: seq<string>, f: string -> Option<Specifier>)
    requires xs != []
    ensures var ys := Keep(xs, f);
            var rest := Keep(xs[1..], f);
            && (f(xs[0]).Some? ==>
                  |ys| == 1 + |rest| && ys[0] == f(xs[0]).value
                  && forall k | 1 <= k < |ys| :: ys[k] == rest[k - 1])
            && (f(xs[0]).None? ==> ys == rest)
  {
    if f(xs[0]).Some? {
      ConsIndex(f(xs[0]).value, Keep(xs[1..], f), Keep(xs, f));
    }
  }

  lemma ConsIndex(v: Specifier, rest: seq<Specifier>, ys: seq<Specifier>)
    requires ys == [v] + rest
    ensures |ys| == 1 + |rest| && ys[0] == v && forall k | 1 <= k < |ys| :: ys[k] == rest[k - 1]
  {
  }

  /** A trace of the lines after the first, moved one line down and, when
      the first line yields a value, preceded by it. */
  lemma ExtendTrace(xs: seq<string>, f: string -> Option<Specifier>, rest: seq<Specifier>, tail: seq<nat>,
                    ys: seq<Specifier>, d: nat, idx: seq<nat>)
    requires xs != [] && Traces(xs[1..], f, rest, tail)
    requires d == if f(xs[0]).Some? then 1 else 0
    requires f(xs[0]).Some? ==>
               |ys| == 1 + |rest| && ys[0] == f(xs[0]).value
               && forall k | 1 <= k < |ys| :: ys[k] == rest[k - 1]
    requires f(xs[0]).None? ==> ys == rest
    requires |idx| == d + |tail| && (d == 1 ==> idx[0] == 0)
    requires forall k | 0 <= k < |tail| :: idx[k + d] == tail[k] + 1
    ensures Traces(xs, f, ys, idx)
  {
    ExtendTaken(xs, f, rest, tail, ys, d, idx);
    ExtendIncreasing(tail, d, idx);
    ExtendCovers(xs, f, tail, d, idx);
  }

  lemma ExtendTaken(xs: seq<string>, f: string -> Option<Specifier>, rest: seq<Specifier>, tail: seq<nat>,
                    ys: seq<Specifier>, d: nat, idx: seq<nat>)
    requires xs != [] && Taken(xs[1..], f, rest, tail)
    requires d == if f(xs[0]).Some? then 1 else 0
    requires f(xs[0]).Some? ==>
               |ys| == 1 + |rest| && ys[0] == f(xs[0]).value
               && forall k | 1 <= k < |ys| :: ys[k] == rest[k - 1]
    requires f(xs[0]).None? ==> ys == rest
    requires |idx| == d + |tail| && (d == 1 ==> idx[0] == 0)
    requires forall k | 0 <= k < |tail| :: idx[k + d] == tail[k] + 1
    ensures Taken(xs, f, ys, idx)
  {
    forall k | 0 <= k < |idx| ensures idx[k] < |xs| && f(xs[idx[k]]) == Some(ys[k]) {
      if k >= d {
        var t := tail[k - d];
        assert idx[k] == t + 1 && ys[k] == rest[k - d];
        assert xs[t + 1] == xs[1..][t];
      }
    }
  }

  lemma ExtendIncreasing(tail: seq<nat>, d: nat, idx: seq<nat>)
    requires Increasing(tail) && d <= 1
    requires |idx| == d + |tail| && (d == 1 ==> idx[0] == 0)
    requires forall k | 0 <= k < |tail| :: idx[k + d] == tail[k] + 1
    ensures Increasing(idx)
  {
    forall j, k | 0 <= j < k < |idx| ensures idx[j] < idx[k] {
      assert idx[k] == tail[k - d] + 1;
      if j >= d {
        assert idx[j] == tail[j - d] + 1;
      }
    }
  }

  lemma ExtendCovers(xs: seq<string>, f: string -> Option<Specifier>, tail: seq<nat>, d: nat, idx: seq<nat>)
    requires xs != [] && Covers(xs[1..], f, tail)
    requires d == if f(xs[0]).Some? then 1 else 0
    requires |idx| == d + |tail| && (d == 1 ==> idx[0] == 0)
    requires forall k | 0 <= k < |tail| :: idx[k + d] == tail[k] + 1
    ensures Covers(xs, f, idx)
  {
    forall i: nat | i < |xs| && YieldsAt(xs, f, i) ensures i in idx {
      if i == 0 {
        assert idx[0] == 0;
      } else {
        assert xs[1..][i - 1] == xs[i];
        assert YieldsAt(xs[1..], f, i - 1);
        var k :| 0 <= k < |tail| && tail[k] == i - 1;
        assert idx[k + d] == i;
      }
    }
  }

  /** The indices `tail` moved one line down, after index 0 when `d` is 1. */
  lemma Shifted(tail: seq<nat>, d: nat) returns (idx: seq<nat>)
    requires d <= 1
    ensures |idx| == d + |tail|
    ensures d == 1 ==> idx[0] == 0
    ensures forall k | 0 <= k < |tail| :: idx[k + d] == tail[k] + 1
  {
    var shifted := seq(|tail|, k requires 0 <= k < |tail| => tail[k] + 1);
    if d == 1 {
      idx := [0] + shifted;
      forall k | 0 <= k < |tail| ensures idx[k + 1] == tail[k] + 1 {
        assert idx[k + 1] == shifted[k];
      }
    } else {
      idx := shifted;
    }
  }

  /** The specifiers are the file's entry lines, one per entry line, in
      file order: specifier `k` is what line `idx[k]` yields, so only entry
      lines are acted on, and none is skipped. */
  lemma EntriesFromLines(lines: seq<string>)
    ensures exists idx :: Traces(lines, EntryOf, Entries(lines), idx)
  {
    EntriesKeep(lines);
    KeepTraced(lines, EntryOf);
  }

  /** The set of presence-check names of a sequence of specifiers. */
  function Names(es: seq<Specifier>): set<string>
  {
    if es == [] then {} else {es[0].name} + Names(es[1..])
  }
}
