/** The Rust string operations the tool relies on, as functions on
    `seq<char>`: substring search (`str::contains`), `ends_with`,
    `[String]::join`, `split` on a character, `lines`, `trim` and
    `trim_matches`, and the left-to-right `str::replace`. */
module Text {

  /** `p` occurs in `s` starting at index `i`. */
  predicate OccursAt(s: string, p: string, i: nat)
  {
    i + |p| <= |s| && s[i..i + |p|] == p
  }

  /** `s.contains(p)`: some suffix of `s` starts with `p`. */
  predicate Contains(s: string, p: string)
    decreases |s|
  {
    p <= s || (s != [] && Contains(s[1..], p))
  }

  /** The scan above agrees with the positional definition of an occurrence. */
  lemma {:induction false} ContainsIff(s: string, p: string)
    ensures Contains(s, p) <==> exists i: nat :: OccursAt(s, p, i)
    decreases |s|
  {
    if p <= s {
      assert OccursAt(s, p, 0);
    } else if s == [] {
      assert forall i: nat :: !OccursAt(s, p, i);
    } else {
      ContainsIff(s[1..], p);
      assert !OccursAt(s, p, 0);
      forall i: nat | 0 < i && OccursAt(s, p, i)
        ensures OccursAt(s[1..], p, i - 1)
      {
        assert s[1..][i - 1..i - 1 + |p|] == s[i..i + |p|];
      }
      forall j: nat | OccursAt(s[1..], p, j)
        ensures OccursAt(s, p, j + 1)
      {
        assert s[1..][j..j + |p|] == s[j + 1..j + 1 + |p|];
      }
    }
  }

  lemma ContainsAt(s: string, p: string, i: nat)
    requires OccursAt(s, p, i)
    ensures Contains(s, p)
  {
    ContainsIff(s, p);
  }

  /** An occurrence stays an occurrence when text is added on either side. */
  lemma ContainsWithin(a: string, b: string, c: string, p: string)
    requires Contains(b, p)
    ensures Contains(a + b + c, p)
  {
    ContainsIff(b, p);
    var i: nat :| OccursAt(b, p, i);
    assert (a + b + c)[|a| + i..|a| + i + |p|] == b[i..i + |p|];
    ContainsAt(a + b + c, p, |a| + i);
  }

  /** `s.ends_with(suffix)` */
  predicate EndsWith(s: string, suffix: string)
  {
    |suffix| <= |s| && s[|s| - |suffix|..] == suffix
  }

  /** `parts.join(sep)` */
  function Join(parts: seq<string>, sep: string): string
  {
    if parts == [] then ""
    else if |parts| == 1 then parts[0]
    else parts[0] + sep + Join(parts[1..], sep)
  }

  /** `s.split(c)`: the pieces between occurrences of `c`, always at least one. */
  function Split(s: string, c: char): (r: seq<string>)
    ensures |r| >= 1
    ensures forall k :: 0 <= k < |r| ==> c !in r[k]
  {
    if s == [] then [""]
    else
      var rest := Split(s[1..], c);
      if s[0] == c then [""] + rest else [[s[0]] + rest[0]] + rest[1..]
  }

  /** Splitting at a first `c` that comes after a `c`-free prefix. */
  lemma {:induction false} SplitAtFirst(x: string, t: string, c: char)
    requires c !in x
    ensures Split(x + [c] + t, c) == [x] + Split(t, c)
  {
    var s := x + [c] + t;
    if x != [] {
      SplitAtFirst(x[1..], t, c);
      assert s[0] == x[0] && s[0] != c;
      assert s[1..] == x[1..] + [c] + t;
      var rest := Split(s[1..], c);
      assert rest == [x[1..]] + Split(t, c);
      assert Split(s, c) == [[x[0]] + rest[0]] + rest[1..];
      assert [x[0]] + x[1..] == x;
    } else {
      assert s[0] == c;
      assert s[1..] == t;
    }
  }

  /** Text without `c` splits into itself alone. */
  lemma {:induction false} SplitWithout(x: string, c: char)
    requires c !in x
    ensures Split(x, c) == [x]
  {
    if x != [] {
      SplitWithout(x[1..], c);
      assert x[0] != c;
      assert [x[0]] + x[1..] == x;
    }
  }

  /** Joining the pieces back with `c` gives the text that was split. */
  lemma {:induction false} JoinSplit(s: string, c: char)
    ensures Join(Split(s, c), [c]) == s
  {
    if s != [] {
      JoinSplit(s[1..], c);
      var rest := Split(s[1..], c);
      if s[0] == c {
        assert Split(s, c) == [""] + rest;
        assert ([""] + rest)[1..] == rest;
      } else {
        if |rest| > 1 {
          assert Join(rest, [c]) == rest[0] + [c] + Join(rest[1..], [c]);
          assert ([[s[0]] + rest[0]] + rest[1..])[1..] == rest[1..];
        }
      }
    }
  }

  /** Splitting a join of `c`-free pieces gives the pieces back. */
  lemma {:induction false} SplitJoin(parts: seq<string>, c: char)
    requires |parts| >= 1
    requires forall k :: 0 <= k < |parts| ==> c !in parts[k]
    ensures Split(Join(parts, [c]), c) == parts
  {
    if |parts| == 1 {
      SplitWithout(parts[0], c);
    } else {
      SplitJoin(parts[1..], c);
      SplitAtFirst(parts[0], Join(parts[1..], [c]), c);
      assert [parts[0]] + parts[1..] == parts;
    }
  }

  /** `l.strip_suffix('\r')`, when there is one. */
  function StripCr(l: string): string
  {
    if l != [] && l[|l| - 1] == '\r' then l[..|l| - 1] else l
  }

  /** `s.lines()`: split at `'\n'`; a line ended by `'\n'` loses one trailing
      `'\r'`; an empty piece after the last `'\n'` is not a line. */
  function Lines(s: string): seq<string>
  {
    LinesOf(Split(s, '\n'))
  }

  /** The lines made of the pieces between newlines: every piece but the last
      was ended by a newline. */
  function LinesOf(parts: seq<string>): seq<string>
    requires |parts| >= 1
  {
    if |parts| == 1 then (if parts[0] == "" then [] else [parts[0]])
    else [StripCr(parts[0])] + LinesOf(parts[1..])
  }

  /** Taking the first line off a text. */
  lemma LinesFirst(x: string, t: string)
    requires '\n' !in x
    ensures Lines(x + "\n" + t) == [StripCr(x)] + Lines(t)
  {
    SplitAtFirst(x, t, '\n');
    assert ([x] + Split(t, '\n'))[1..] == Split(t, '\n');
  }

  /** Each line followed by a newline. */
  function Unlines(ls: seq<string>): string
  {
    if ls == [] then "" else ls[0] + "\n" + Unlines(ls[1..])
  }

  /** Each line without a trailing `'\r'`. */
  function StripCrs(ls: seq<string>): seq<string>
  {
    seq(|ls|, k requires 0 <= k < |ls| => StripCr(ls[k]))
  }

  /** Whole lines followed by more text: `lines()` gives those lines, each
      without a trailing `'\r'`, and then the lines of the rest. */
  lemma {:induction false} LinesAfter(ls: seq<string>, t: string)
    requires forall k :: 0 <= k < |ls| ==> '\n' !in ls[k]
    ensures Lines(Unlines(ls) + t) == StripCrs(ls) + Lines(t)
  {
    if ls == [] {
      assert Unlines(ls) + t == t;
    } else {
      var tail := Unlines(ls[1..]) + t;
      LinesAfter(ls[1..], t);
      Regroup3(ls[0], Unlines(ls[1..]), t);
      LinesFirst(ls[0], tail);
      StripCrsCons(ls);
    }
  }

  lemma StripCrsCons(ls: seq<string>)
    requires ls != []
    ensures StripCrs(ls) == [StripCr(ls[0])] + StripCrs(ls[1..])
  {
  }

  lemma NoNewlineSnoc(ls: seq<string>, x: string)
    requires forall k :: 0 <= k < |ls| ==> '\n' !in ls[k]
    requires '\n' !in x
    ensures forall k :: 0 <= k < |ls + [x]| ==> '\n' !in (ls + [x])[k]
  {
  }

  lemma StripCrsSnoc(ls: seq<string>, x: string)
    requires StripCr(x) == x
    ensures StripCrs(ls + [x]) == StripCrs(ls) + [x]
  {
  }

  lemma AppendAssoc<T>(a: seq<T>, b: seq<T>, c: seq<T>)
    ensures a + b + c == a + (b + c)
  {
  }

  lemma Regroup3(x: string, u: string, t: string)
    ensures x + "\n" + u + t == x + "\n" + (u + t)
  {
  }

  /** The characters `char::is_whitespace` accepts (Unicode White_Space). */
  const Whitespace: set<char> :=
    {'\t', '\n', '\U{B}', '\U{C}', '\r', ' ', '\U{85}', '\U{A0}', '\U{1680}',
     '\U{2000}', '\U{2001}', '\U{2002}', '\U{2003}', '\U{2004}', '\U{2005}',
     '\U{2006}', '\U{2007}', '\U{2008}', '\U{2009}', '\U{200A}', '\U{2028}',
     '\U{2029}', '\U{202F}', '\U{205F}', '\U{3000}'}

  /** `s.trim_start_matches(|ch| ch in cs)`: the longest prefix of
      characters from `cs` is removed, and nothing else. */
  function TrimStart(s: string, cs: set<char>): (r: string)
    ensures |r| <= |s| && r == s[|s| - |r|..]
    ensures forall k :: 0 <= k < |s| - |r| ==> s[k] in cs
    ensures r != [] ==> r[0] !in cs
  {
    if s != [] && s[0] in cs then TrimStart(s[1..], cs) else s
  }

  /** `s.trim_end_matches(|ch| ch in cs)`: the longest suffix of characters
      from `cs` is removed, and nothing else. */
  function TrimEnd(s: string, cs: set<char>): (r: string)
    ensures |r| <= |s| && r == s[..|r|]
    ensures forall k :: |r| <= k < |s| ==> s[k] in cs
    ensures r != [] ==> r[|r| - 1] !in cs
  {
    if s != [] && s[|s| - 1] in cs then TrimEnd(s[..|s| - 1], cs) else s
  }

  /** `s.trim_matches(|ch| ch in cs)`; `trim()` is `Trim(s, Whitespace)`. */
  function Trim(s: string, cs: set<char>): (r: string)
    ensures r != [] ==> r[0] !in cs && r[|r| - 1] !in cs
    ensures forall ch :: ch in r ==> ch in s
  {
    TrimEnd(TrimStart(s, cs), cs)
  }

  /** Trimming looks past a leading character from `cs`. */
  lemma TrimStartDrop(c: char, t: string, cs: set<char>)
    requires c in cs
    ensures TrimStart([c] + t, cs) == TrimStart(t, cs)
  {
    assert ([c] + t)[1..] == t;
  }

  /** Trimming looks past a trailing character from `cs`. */
  lemma TrimEndDrop(t: string, c: char, cs: set<char>)
    requires c in cs
    ensures TrimEnd(t + [c], cs) == TrimEnd(t, cs)
  {
    assert (t + [c])[..|t|] == t;
  }

  /** Text with no character from `cs` at either end is left as it is. */
  lemma TrimUntouched(s: string, cs: set<char>)
    requires s != [] ==> s[0] !in cs && s[|s| - 1] !in cs
    ensures Trim(s, cs) == s
  {
  }

  /** `s.replace(pat, rep)`: occurrences of `pat` are found left to right,
      without overlap, and each is replaced by `rep`. */
  function ReplaceAll(s: string, pat: string, rep: string): string
    requires pat != []
    decreases |s|
  {
    if s == [] then []
    else if pat <= s then rep + ReplaceAll(s[|pat|..], pat, rep)
    else [s[0]] + ReplaceAll(s[1..], pat, rep)
  }

  /** Without an occurrence nothing is replaced. */
  lemma {:induction false} ReplaceAllNoMatch(s: string, pat: string, rep: string)
    requires pat != []
    requires !Contains(s, pat)
    ensures ReplaceAll(s, pat, rep) == s
    decreases |s|
  {
    if s != [] {
      ReplaceAllNoMatch(s[1..], pat, rep);
    }
  }

  /** `s.split(pat)` for a non-empty pattern: the pieces between the
      occurrences `ReplaceAll` finds.  No piece contains the pattern. */
  function SplitOn(s: string, pat: string): (r: seq<string>)
    requires pat != []
    ensures |r| >= 1 && r[0] <= s
    ensures forall k :: 0 <= k < |r| ==> !Contains(r[k], pat)
    decreases |s|
  {
    if s == [] then [""]
    else if pat <= s then [""] + SplitOn(s[|pat|..], pat)
    else
      var rest := SplitOn(s[1..], pat);
      var first := [s[0]] + rest[0];
      assert first[1..] == rest[0];
      assert first <= s;
      [first] + rest[1..]
  }

  lemma JoinCons(x: string, rest: seq<string>, sep: string)
    requires |rest| >= 1
    ensures Join([x] + rest, sep) == x + sep + Join(rest, sep)
  {
    assert ([x] + rest)[1..] == rest;
  }

  lemma JoinMergeFirst(c: char, rest: seq<string>, sep: string)
    requires |rest| >= 1
    ensures Join([[c] + rest[0]] + rest[1..], sep) == [c] + Join(rest, sep)
  {
    if |rest| > 1 {
      JoinCons([c] + rest[0], rest[1..], sep);
      JoinCons(rest[0], rest[1..], sep);
      assert [rest[0]] + rest[1..] == rest;
    }
  }

  /** Replacing every occurrence is gluing the pieces between occurrences
      back together with the replacement instead of the pattern. */
  lemma {:induction false} ReplaceAllIsJoin(s: string, pat: string, rep: string)
    requires pat != []
    ensures ReplaceAll(s, pat, rep) == Join(SplitOn(s, pat), rep)
    decreases |s|
  {
    if s == [] {
    } else if pat <= s {
      ReplaceAllIsJoin(s[|pat|..], pat, rep);
      JoinCons("", SplitOn(s[|pat|..], pat), rep);
    } else {
      ReplaceAllIsJoin(s[1..], pat, rep);
      JoinMergeFirst(s[0], SplitOn(s[1..], pat), rep);
    }
  }

  /** Replacing the pattern by itself changes nothing. */
  lemma {:induction false} ReplaceAllSelf(s: string, pat: string)
    requires pat != []
    ensures ReplaceAll(s, pat, pat) == s
    decreases |s|
  {
    if s == [] {
    } else if pat <= s {
      ReplaceAllSelf(s[|pat|..], pat);
      assert pat + s[|pat|..] == s;
    } else {
      ReplaceAllSelf(s[1..], pat);
      assert [s[0]] + s[1..] == s;
    }
  }

  /** Gluing the pieces with the pattern gives the text back. */
  lemma JoinSplitOn(s: string, pat: string)
    requires pat != []
    ensures Join(SplitOn(s, pat), pat) == s
  {
    ReplaceAllIsJoin(s, pat, pat);
    ReplaceAllSelf(s, pat);
  }
}
