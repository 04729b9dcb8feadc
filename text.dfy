/** String helpers with the meaning of the Python string methods the tool uses:
    `str.strip()` with no argument and `s.split(sep)[0]` / `[1]`. */
module Text {
  import opened Wrappers

  /** The characters Python's `str.strip()` removes when called without an
      argument: those for which `str.isspace()` holds. */
  predicate IsSpace(c: char) {
    c == ' ' || ('\t' <= c && c <= '\r') || ('\U{1C}' <= c && c <= '\U{1F}')
    || c == '\U{85}' || c == '\U{A0}' || c == '\U{1680}'
    || ('\U{2000}' <= c && c <= '\U{200A}') || c == '\U{2028}' || c == '\U{2029}'
    || c == '\U{202F}' || c == '\U{205F}' || c == '\U{3000}'
  }

  predicate AllSpace(s: string) {
    forall i | 0 <= i < |s| :: IsSpace(s[i])
  }

  /** `s` with its leading whitespace removed. */
  function TrimStart(s: string): string
  {
    if s != [] && IsSpace(s[0]) then TrimStart(s[1..]) else s
  }

  /** Trimming the front removes a whitespace-only prefix and nothing more. */
  lemma {:induction false} TrimStartSpec(s: string)
    ensures var r := TrimStart(s);
            |r| <= |s| && r == s[|s| - |r|..]
            && AllSpace(s[..|s| - |r|])
            && (r == [] || !IsSpace(r[0]))
  {
    if s != [] && IsSpace(s[0]) {
      TrimStartSpec(s[1..]);
      var r := TrimStart(s);
      assert s[1..][|s| - 1 - |r|..] == s[|s| - |r|..];
      assert s[..|s| - |r|] == [s[0]] + s[1..][..|s| - 1 - |r|];
    }
  }

  /** `s` with its trailing whitespace removed. */
  function TrimEnd(s: string): string
  {
    if s != [] && IsSpace(s[|s| - 1]) then TrimEnd(s[..|s| - 1]) else s
  }

  /** Trimming the back removes a whitespace-only suffix and nothing more. */
  lemma {:induction false} TrimEndSpec(s: string)
    ensures var r := TrimEnd(s);
            |r| <= |s| && r == s[..|r|]
            && AllSpace(s[|r|..])
            && (r == [] || !IsSpace(r[|r| - 1]))
  {
    if s != [] && IsSpace(s[|s| - 1]) {
      TrimEndSpec(s[..|s| - 1]);
      var r := TrimEnd(s);
      assert s[..|s| - 1][..|r|] == s[..|r|];
      assert s[|r|..] == s[..|s| - 1][|r|..] + [s[|s| - 1]];
    }
  }

  /** Python's `s.strip()`: the result never starts or ends with whitespace,
      and it is empty exactly when `s` is all whitespace. */
  function Strip(s: string): string
  {
    TrimEnd(TrimStart(s))
  }

  /** `Strip` never leaves whitespace at either end, and it yields the empty
      string exactly when `s` is all whitespace. */
  lemma StripSpec(s: string)
    ensures var r := Strip(s);
            |r| <= |s|
            && (r == [] || (!IsSpace(r[0]) && !IsSpace(r[|r| - 1])))
            && (r == [] <==> AllSpace(s))
  {
    var t := TrimStart(s);
    var r := TrimEnd(t);
    TrimStartSpec(s);
    TrimEndSpec(t);
    assert s == s[..|s| - |t|] + t;
    assert t == r + t[|r|..];
    assert r == [] ==> AllSpace(t);
    assert t != [] ==> t[0] == s[|s| - |t|];
  }

  lemma {:induction false} TrimStartSkips(lead: string, t: string)
    requires AllSpace(lead)
    requires t == [] || !IsSpace(t[0])
    ensures TrimStart(lead + t) == t
  {
    if lead == [] {
      assert lead + t == t;
    } else {
      assert (lead + t)[0] == lead[0];
      assert (lead + t)[1..] == lead[1..] + t;
      TrimStartSkips(lead[1..], t);
    }
  }

  lemma {:induction false} TrimEndSkips(t: string, trail: string)
    requires AllSpace(trail)
    requires t == [] || !IsSpace(t[|t| - 1])
    ensures TrimEnd(t + trail) == t
  {
    if trail == [] {
      assert t + trail == t;
    } else {
      var n := |t + trail|;
      assert (t + trail)[n - 1] == trail[|trail| - 1];
      assert (t + trail)[..n - 1] == t + trail[..|trail| - 1];
      TrimEndSkips(t, trail[..|trail| - 1]);
    }
  }

  /** Stripping recovers the text between leading and trailing whitespace. */
  lemma StripRecoversCore(lead: string, core: string, trail: string)
    requires AllSpace(lead) && AllSpace(trail)
    requires core == [] || (!IsSpace(core[0]) && !IsSpace(core[|core| - 1]))
    ensures Strip(lead + core + trail) == core
  {
    if core == [] {
      assert lead + core + trail == lead + trail;
      StripSpec(lead + trail);
      assert AllSpace(lead + trail) by {
        forall i | 0 <= i < |lead + trail| ensures IsSpace((lead + trail)[i]) {
          if i >= |lead| { assert (lead + trail)[i] == trail[i - |lead|]; }
        }
      }
    } else {
      assert lead + core + trail == lead + (core + trail);
      TrimStartSkips(lead, core + trail);
      TrimEndSkips(core, trail);
    }
  }

  /** Stripping twice is stripping once. */
  lemma {:induction false} StripIdempotent(s: string)
    ensures Strip(Strip(s)) == Strip(s)
  {
    StripSpec(s);
    StripKeeps(Strip(s));
  }

  lemma StripKeeps(r: string)
    requires r == [] || (!IsSpace(r[0]) && !IsSpace(r[|r| - 1]))
    ensures Strip(r) == r
  {
    assert TrimStart(r) == r;
    assert TrimEnd(r) == r;
  }

  /** `sep` occurs in `s` starting at index `i`. */
  predicate OccursAt(s: string, sep: string, i: nat) {
    i + |sep| <= |s| && s[i..i + |sep|] == sep
  }

  /** `sep` occurs somewhere in `s`. */
  predicate Contains(s: string, sep: string) {
    exists i: nat | i < |s| :: OccursAt(s, sep, i)
  }

  /** Python's `s.split(sep)[0]` for a non-empty `sep`: the part of `s` before
      the first occurrence of `sep`, or all of `s` when `sep` does not occur. */
  function Before(s: string, sep: string): string
    requires sep != []
  {
    if |s| < |sep| then s
    else if s[..|sep|] == sep then []
    else [s[0]] + Before(s[1..], sep)
  }

  /** `Before` is a prefix of `s`, `sep` does not start anywhere inside it,
      and unless it is all of `s`, `sep` starts right where it ends. */
  lemma {:induction false} BeforeSpec(s: string, sep: string)
    requires sep != []
    ensures var r := Before(s, sep);
            r <= s
            && (forall i: nat | i < |r| :: !OccursAt(s, sep, i))
            && (r == s || OccursAt(s, sep, |r|))
  {
    if |s| >= |sep| && s[..|sep|] != sep {
      BeforeSpec(s[1..], sep);
      OccursShift(s, sep);
      var r := Before(s, sep);
      assert !OccursAt(s, sep, 0);
      forall i: nat | i < |r| ensures !OccursAt(s, sep, i) {
        if i > 0 {
          assert !OccursAt(s[1..], sep, i - 1);
        }
      }
    }
  }

  lemma OccursShift(s: string, sep: string)
    requires s != []
    ensures forall i: nat | 1 <= i :: OccursAt(s, sep, i) == OccursAt(s[1..], sep, i - 1)
  {
    forall i: nat | 1 <= i
      ensures OccursAt(s, sep, i) == OccursAt(s[1..], sep, i - 1)
    {
      if i + |sep| <= |s| {
        assert s[i..i + |sep|] == s[1..][i - 1..i - 1 + |sep|];
      }
    }
  }

  /** When the first character of `sep` does not occur in `s`, splitting
      `s + sep + rest` on `sep` yields `s` first, and `s` alone splits to itself. */
  lemma {:induction false} BeforeFirst(s: string, sep: string, rest: string)
    requires sep != [] && sep[0] !in s
    ensures Before(s + sep + rest, sep) == s
    ensures Before(s, sep) == s
  {
    if s == [] {
      assert (s + sep + rest)[..|sep|] == sep;
    } else {
      var t := s + sep + rest;
      assert t[0] == s[0] && t[0] != sep[0];
      assert t[..|sep|] != sep;
      assert t[1..] == s[1..] + sep + rest;
      BeforeFirst(s[1..], sep, rest);
      assert [s[0]] + s[1..] == s;
      if |s| >= |sep| {
        assert s[..|sep|][0] == s[0];
      }
    }
  }

  /** The text after the first occurrence of `c` in `s`. */
  function AfterFirst(s: string, c: char): string
    requires c in s
  {
    if s[0] == c then s[1..] else AfterFirst(s[1..], c)
  }

  /** Python's `s.split("'")[1]`: the text between the first and the second
      quote, or everything after the first quote when there is no second one;
      None when `s` has no quote, where Python raises `IndexError`. */
  function SecondField(s: string): Option<string>
  {
    if '\'' in s then Some(Before(AfterFirst(s, '\''), "'")) else None
  }

  /** Splitting `pre'field'post` or `pre'field` on the quote puts `field` at
      index 1 whenever neither `pre` nor `field` holds a quote; without any
      quote there is no index 1. */
  lemma {:induction false} SecondFieldOf(pre: string, field: string, post: string)
    requires '\'' !in pre && '\'' !in field
    ensures SecondField(pre + "'" + field + "'" + post) == Some(field)
    ensures SecondField(pre + "'" + field) == Some(field)
    ensures SecondField(pre) == None
  {
    AfterFirstOf(pre, field + "'" + post);
    AfterFirstOf(pre, field);
    assert pre + "'" + field + "'" + post == pre + "'" + (field + "'" + post);
    assert (pre + "'" + field + "'" + post)[|pre|] == '\'';
    assert (pre + "'" + field)[|pre|] == '\'';
    BeforeFirst(field, "'", post);
  }

  lemma {:induction false} AfterFirstOf(pre: string, rest: string)
    requires '\'' !in pre
    ensures '\'' in pre + "'" + rest
    ensures AfterFirst(pre + "'" + rest, '\'') == rest
  {
    var s := pre + "'" + rest;
    assert s[|pre|] == '\'';
    if pre != [] {
      assert s[1..] == pre[1..] + "'" + rest;
      AfterFirstOf(pre[1..], rest);
    }
  }
}
