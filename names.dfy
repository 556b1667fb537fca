/**
 * File and directory names as the card library builds them: the
 * sanitising filter applied to every game, type and card name, and the
 * string order in which directory listings are sorted.
 */
module Names {

  /** `c.isalnum()`, restricted to ASCII letters and digits. */
  predicate IsAlnum(c: char)
  {
    ('a' <= c <= 'z') || ('A' <= c <= 'Z') || ('0' <= c <= '9')
  }

  /** The characters the sanitising filter keeps. */
  predicate Allowed(c: char)
  {
    IsAlnum(c) || c == ' ' || c == '-' || c == '_'
  }

  /** The comprehension `[c for c in s if c.isalnum() or c in (' ', '-', '_')]`. */
  function Keep(s: string): (r: string)
    decreases |s|
  {
    if s == [] then [] else (if Allowed(s[0]) then [s[0]] else []) + Keep(s[1..])
  }

  /** `str.lstrip()` for a text whose only whitespace is ' '. */
  function TrimStart(s: string): string
    decreases |s|
  {
    if s != [] && s[0] == ' ' then TrimStart(s[1..]) else s
  }

  /** `str.rstrip()` for a text whose only whitespace is ' '. */
  function TrimEnd(s: string): string
    decreases |s|
  {
    if s != [] && s[|s| - 1] == ' ' then TrimEnd(s[..|s| - 1]) else s
  }

  /** `"".join(...).strip()`: the name used for directories and files. */
  function Sanitize(s: string): string
  {
    TrimEnd(TrimStart(Keep(s)))
  }

  predicate AllAllowed(s: string)
  {
    forall i :: 0 <= i < |s| ==> Allowed(s[i])
  }

  /** A name the filter and the strip both leave alone. */
  predicate Clean(s: string)
  {
    AllAllowed(s) && (s != [] ==> s[0] != ' ' && s[|s| - 1] != ' ')
  }

  function Spaces(n: nat): string
  {
    seq(n, _ => ' ')
  }

  lemma {:induction false} KeepAllowed(s: string)
    ensures AllAllowed(Keep(s))
    decreases |s|
  {
    if s != [] {
      KeepAllowed(s[1..]);
    }
  }

  lemma {:induction false} KeepFixesAllowed(s: string)
    requires AllAllowed(s)
    ensures Keep(s) == s
    decreases |s|
  {
    if s != [] {
      KeepFixesAllowed(s[1..]);
    }
  }

  /** `TrimStart` removes exactly a run of leading spaces. */
  lemma {:induction false} TrimStartSplits(s: string)
    ensures exists n: nat :: n <= |s| && s == Spaces(n) + TrimStart(s)
    ensures TrimStart(s) != [] ==> TrimStart(s)[0] != ' '
    decreases |s|
  {
    if s != [] && s[0] == ' ' {
      TrimStartSplits(s[1..]);
      var n: nat :| n <= |s[1..]| && s[1..] == Spaces(n) + TrimStart(s[1..]);
      assert s == Spaces(n + 1) + TrimStart(s);
    } else {
      assert s == Spaces(0) + s;
    }
  }

  /** `TrimEnd` removes exactly a run of trailing spaces. */
  lemma {:induction false} TrimEndSplits(s: string)
    ensures exists n: nat :: n <= |s| && s == TrimEnd(s) + Spaces(n)
    ensures TrimEnd(s) != [] ==> TrimEnd(s)[|TrimEnd(s)| - 1] != ' '
    decreases |s|
  {
    if s != [] && s[|s| - 1] == ' ' {
      TrimEndSplits(s[..|s| - 1]);
      var t := s[..|s| - 1];
      var n: nat :| n <= |t| && t == TrimEnd(t) + Spaces(n);
      assert s == t + [' '];
      assert s == TrimEnd(s) + Spaces(n + 1);
    } else {
      assert s == s + Spaces(0);
    }
  }

  lemma {:induction false} TrimEndKeepsStart(s: string)
    requires s != [] ==> s[0] != ' '
    ensures TrimEnd(s) != [] ==> TrimEnd(s)[0] != ' '
    decreases |s|
  {
    if s != [] && s[|s| - 1] == ' ' {
      TrimEndKeepsStart(s[..|s| - 1]);
    }
  }

  lemma {:induction false} AllowedSlice(s: string, i: nat, j: nat)
    requires AllAllowed(s) && i <= j <= |s|
    ensures AllAllowed(s[i..j])
  {
    assert forall k :: 0 <= k < j - i ==> s[i..j][k] == s[i + k];
  }

  lemma {:induction false} TrimStartAllowed(s: string)
    requires AllAllowed(s)
    ensures AllAllowed(TrimStart(s))
    decreases |s|
  {
    if s != [] && s[0] == ' ' {
      AllowedSlice(s, 1, |s|);
      TrimStartAllowed(s[1..]);
    }
  }

  lemma {:induction false} TrimEndAllowed(s: string)
    requires AllAllowed(s)
    ensures AllAllowed(TrimEnd(s))
    decreases |s|
  {
    if s != [] && s[|s| - 1] == ' ' {
      AllowedSlice(s, 0, |s| - 1);
      TrimEndAllowed(s[..|s| - 1]);
    }
  }

  /**
   * A sanitised name holds only letters, digits, ' ', '-' and '_', and
   * neither starts nor ends with a space; it is the filtered text with
   * its outer spaces cut off, and nothing else.
   */
  lemma SanitizeIsClean(s: string)
    ensures Clean(Sanitize(s))
    ensures exists a: nat, b: nat :: Keep(s) == Spaces(a) + Sanitize(s) + Spaces(b)
  {
    var k := Keep(s);
    var t := TrimStart(k);
    KeepAllowed(s);
    TrimStartAllowed(k);
    TrimEndAllowed(t);
    TrimStartSplits(k);
    TrimEndSplits(t);
    TrimEndKeepsStart(t);
    SanitizeSplits(s);
  }

  lemma SanitizeSplits(s: string)
    ensures exists a: nat, b: nat :: Keep(s) == Spaces(a) + Sanitize(s) + Spaces(b)
  {
    var k := Keep(s);
    var t := TrimStart(k);
    TrimStartSplits(k);
    TrimEndSplits(t);
    var a: nat :| a <= |k| && k == Spaces(a) + t;
    var b: nat :| b <= |t| && t == TrimEnd(t) + Spaces(b);
    assert k == Spaces(a) + (Sanitize(s) + Spaces(b));
    assert k == Spaces(a) + Sanitize(s) + Spaces(b);
  }

  lemma {:induction false} TrimStartFixes(s: string)
    requires s != [] ==> s[0] != ' '
    ensures TrimStart(s) == s
  {
  }

  lemma {:induction false} TrimEndFixes(s: string)
    requires s != [] ==> s[|s| - 1] != ' '
    ensures TrimEnd(s) == s
  {
  }

  /** A clean name sanitises to itself. */
  lemma CleanIsFixed(s: string)
    requires Clean(s)
    ensures Sanitize(s) == s
  {
    KeepFixesAllowed(s);
    TrimStartFixes(s);
    TrimEndFixes(s);
  }

  /** Sanitising twice gives the same name as sanitising once. */
  lemma SanitizeIdempotent(s: string)
    ensures Sanitize(Sanitize(s)) == Sanitize(s)
  {
    SanitizeIsClean(s);
    CleanIsFixed(Sanitize(s));
  }

  // ---------------------------------------------------------------------------
  // Python's string order: lexicographic by code point, a proper prefix first.

  predicate Less(a: string, b: string)
    decreases |a|
  {
    if a == [] then b != []
    else if b == [] then false
    else if a[0] != b[0] then a[0] < b[0]
    else Less(a[1..], b[1..])
  }

  lemma {:induction false} LessIrreflexive(a: string)
    ensures !Less(a, a)
    decreases |a|
  {
    if a != [] {
      LessIrreflexive(a[1..]);
    }
  }

  lemma {:induction false} LessTransitive(a: string, b: string, c: string)
    requires Less(a, b) && Less(b, c)
    ensures Less(a, c)
    decreases |a|
  {
    if a != [] && b != [] && c != [] && a[0] == b[0] && b[0] == c[0] {
      LessTransitive(a[1..], b[1..], c[1..]);
    }
  }

  lemma {:induction false} LessTotal(a: string, b: string)
    ensures a == b || Less(a, b) || Less(b, a)
    decreases |a|
  {
    if a != [] && b != [] && a[0] == b[0] {
      LessTotal(a[1..], b[1..]);
      if a[1..] == b[1..] {
        assert a == [a[0]] + a[1..] && b == [b[0]] + b[1..];
      }
    }
  }

  lemma LessAsymmetric(a: string, b: string)
    requires Less(a, b)
    ensures !Less(b, a)
  {
    if Less(b, a) {
      LessTransitive(a, b, a);
      LessIrreflexive(a);
    }
  }

  predicate IsLeast(m: string, s: set<string>)
  {
    m in s && forall y :: y in s ==> y == m || Less(m, y)
  }

  /** Every finite non-empty set of names has a least element. */
  lemma {:induction false} LeastExists(s: set<string>)
    requires s != {}
    ensures exists m :: IsLeast(m, s)
    decreases |s|
  {
    var x :| x in s;
    if s == {x} {
      assert IsLeast(x, s);
    } else {
      LeastExists(s - {x});
      var m :| IsLeast(m, s - {x});
      LessTotal(m, x);
      if Less(m, x) {
        assert IsLeast(m, s);
      } else {
        forall y | y in s ensures y == x || Less(x, y) {
          if y != x {
            assert y == m || Less(m, y);
            if y != m { LessTransitive(x, m, y); }
          }
        }
        assert IsLeast(x, s);
      }
    }
  }

  lemma LeastUnique(a: string, b: string, s: set<string>)
    requires IsLeast(a, s) && IsLeast(b, s)
    ensures a == b
  {
    if a != b {
      assert Less(a, b) && Less(b, a);
      LessAsymmetric(a, b);
    }
  }

  ghost function Least(s: set<string>): (m: string)
    requires s != {}
    ensures IsLeast(m, s)
  {
    LeastExists(s);
    var m :| IsLeast(m, s); m
  }

  /** `sorted(s)`: the names of `s` in increasing order. */
  ghost function Sorted(s: set<string>): seq<string>
    decreases |s|
  {
    if s == {} then [] else [Least(s)] + Sorted(s - {Least(s)})
  }

  /** Sorting a set starts with its least element. */
  lemma SortedStep(s: set<string>, m: string)
    requires IsLeast(m, s)
    ensures Sorted(s) == [m] + Sorted(s - {m})
  {
    LeastUnique(m, Least(s), s);
  }

  predicate Increasing(r: seq<string>)
  {
    forall i, j :: 0 <= i < j < |r| ==> Less(r[i], r[j])
  }

  /** `sorted` lists each name of the set once, in strictly increasing order. */
  lemma {:induction false} SortedIsOrdered(s: set<string>)
    ensures |Sorted(s)| == |s|
    ensures forall x :: x in Sorted(s) <==> x in s
    ensures Increasing(Sorted(s))
    decreases |s|
  {
    if s != {} {
      var m := Least(s);
      SortedIsOrdered(s - {m});
      var r := Sorted(s);
      assert r == [m] + Sorted(s - {m});
      forall i, j | 0 <= i < j < |r| ensures Less(r[i], r[j]) {
        if i == 0 {
          assert r[j] in s - {m};
        } else {
          assert r[i] == Sorted(s - {m})[i - 1] && r[j] == Sorted(s - {m})[j - 1];
        }
      }
    }
  }

  // ---------------------------------------------------------------------------
  // File names.

  predicate EndsWith(s: string, suffix: string)
  {
    |suffix| <= |s| && s[|s| - |suffix|..] == suffix
  }

  /** The names a `glob("*.png")` of a directory yields. */
  function Pngs(files: set<string>): (r: set<string>)
    ensures forall f :: f in r <==> f in files && EndsWith(f, ".png")
  {
    set f | f in files && EndsWith(f, ".png")
  }

  /**
   * `Path(f).stem`, for the names ending in ".png" it is applied to: the
   * name without that suffix, except for ".png" itself, whose leading dot
   * is no suffix.
   */
  function Stem(f: string): (r: string)
    ensures EndsWith(f, ".png") && |f| > 4 ==> r + ".png" == f
    ensures |f| <= 4 ==> r == f
  {
    if |f| > 4 then f[..|f| - 4] else f
  }
}
