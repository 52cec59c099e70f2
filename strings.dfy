/** The Python string operations the core relies on, written out on
    `seq<char>`: `str(int)`, `split` on one character, `join`, `replace`,
    `lower`/`capitalize` (ASCII letters only), `endswith` and the posix
    `os.path.basename`. Each comes with the laws the rest of the model uses. */
module Strings {

  // ---------------------------------------------------------------------------
  // Decimal numerals: str(n)

  predicate IsDigit(c: char)
  {
    '0' <= c <= '9'
  }

  predicate AllDigits(s: string)
  {
    forall i :: 0 <= i < |s| ==> IsDigit(s[i])
  }

  function DigitChar(d: nat): (c: char)
    requires d < 10
    ensures IsDigit(c)
  {
    ('0' as int + d) as char
  }

  function DigitValue(c: char): (d: nat)
    requires IsDigit(c)
    ensures d < 10
  {
    c as int - '0' as int
  }

  /** `str(n)` for a non-negative integer: at least one digit and nothing else. */
  function NatToString(n: nat): (s: string)
    ensures |s| >= 1 && AllDigits(s)
    ensures n < 10 <==> |s| == 1
    decreases n
  {
    if n < 10 then [DigitChar(n)] else NatToString(n / 10) + [DigitChar(n % 10)]
  }

  /** `int(s)` for a string of decimal digits (the empty string reads as 0). */
  function ParseNat(s: string): nat
    requires AllDigits(s)
  {
    if s == [] then 0 else ParseNat(s[..|s| - 1]) * 10 + DigitValue(s[|s| - 1])
  }

  /** Reading back a numeral gives the number it was written from. */
  lemma {:induction false} ParseNatToString(n: nat)
    ensures ParseNat(NatToString(n)) == n
    decreases n
  {
    if n >= 10 {
      var s := NatToString(n);
      assert s[..|s| - 1] == NatToString(n / 10);
      ParseNatToString(n / 10);
    }
  }

  /** Distinct numbers have distinct numerals. */
  lemma NatToStringInjective(a: nat, b: nat)
    requires NatToString(a) == NatToString(b)
    ensures a == b
  {
    ParseNatToString(a);
    ParseNatToString(b);
  }

  /** `str(n)` for any integer. */
  function IntToString(n: int): string
  {
    if n < 0 then "-" + NatToString(-n) else NatToString(n)
  }

  /** The numbered label `"[i] "` that starts every context block. */
  function Label(i: nat): (r: string)
    ensures |r| >= 4 && r[0] == '[' && r[|r| - 2..] == "] "
  {
    "[" + NatToString(i) + "] "
  }

  // ---------------------------------------------------------------------------
  // Case mapping (ASCII letters; every other character is left as it is)

  function LowerChar(c: char): char
  {
    if 'A' <= c <= 'Z' then (c as int + 32) as char else c
  }

  function UpperChar(c: char): char
  {
    if 'a' <= c <= 'z' then (c as int - 32) as char else c
  }

  /** `s.lower()` */
  function Lower(s: string): (r: string)
    ensures |r| == |s|
  {
    if s == [] then [] else [LowerChar(s[0])] + Lower(s[1..])
  }

  /** `w.capitalize()`: first character upper-case, the rest lower-case. */
  function Capitalize(w: string): (r: string)
    ensures |r| == |w|
  {
    if w == [] then [] else [UpperChar(w[0])] + Lower(w[1..])
  }

  lemma {:induction false} LowerConcat(a: string, b: string)
    ensures Lower(a + b) == Lower(a) + Lower(b)
    decreases |a|
  {
    if a != [] {
      assert (a + b)[0] == a[0] && (a + b)[1..] == a[1..] + b;
      LowerConcat(a[1..], b);
      calc {
        Lower(a + b);
        [LowerChar(a[0])] + Lower(a[1..] + b);
        [LowerChar(a[0])] + Lower(a[1..]) + Lower(b);
        Lower(a) + Lower(b);
      }
    } else {
      assert a + b == b;
    }
  }

  lemma {:induction false} LowerIdempotent(s: string)
    ensures Lower(Lower(s)) == Lower(s)
    decreases |s|
  {
    if s != [] {
      LowerIdempotent(s[1..]);
      assert Lower(s)[1..] == Lower(s[1..]);
    }
  }

  /** Capitalising a word changes it only up to case. */
  lemma LowerCapitalize(w: string)
    ensures Lower(Capitalize(w)) == Lower(w)
  {
    if w != [] {
      var c := Capitalize(w);
      assert c[1..] == Lower(w[1..]);
      LowerIdempotent(w[1..]);
    }
  }

  lemma {:induction false} LowerKeepsChar(s: string, c: char)
    requires LowerChar(c) == c && forall x :: LowerChar(x) == c ==> x == c
    ensures c in Lower(s) <==> c in s
    decreases |s|
  {
    if s != [] {
      LowerKeepsChar(s[1..], c);
      assert Lower(s) == [LowerChar(s[0])] + Lower(s[1..]);
      assert s == [s[0]] + s[1..];
    }
  }

  // ---------------------------------------------------------------------------
  // Prefixes and suffixes

  predicate StartsWith(s: string, prefix: string)
  {
    |prefix| <= |s| && s[..|prefix|] == prefix
  }

  /** A prefix stays a prefix when the same text is put before both. */
  lemma StartsWithPrepend(front: string, s: string, prefix: string)
    requires StartsWith(s, prefix)
    ensures StartsWith(front + s, front + prefix)
  {
    assert (front + s)[..|front + prefix|] == front + s[..|prefix|];
  }

  /** `s.endswith(suffix)` */
  predicate EndsWith(s: string, suffix: string)
  {
    |suffix| <= |s| && s[|s| - |suffix|..] == suffix
  }

  // ---------------------------------------------------------------------------
  // join and split

  /** `sep.join(parts)` */
  function Join(parts: seq<string>, sep: string): string
  {
    if |parts| == 0 then ""
    else if |parts| == 1 then parts[0]
    else parts[0] + sep + Join(parts[1..], sep)
  }

  function TotalLength(parts: seq<string>): nat
  {
    if parts == [] then 0 else |parts[0]| + TotalLength(parts[1..])
  }

  /** Appending one part adds one separator and the part. */
  lemma {:induction false} JoinSnoc(parts: seq<string>, p: string, sep: string)
    requires |parts| >= 1
    ensures Join(parts + [p], sep) == Join(parts, sep) + sep + p
    decreases |parts|
  {
    if |parts| > 1 {
      assert (parts + [p])[1..] == parts[1..] + [p];
      JoinSnoc(parts[1..], p, sep);
    }
  }

  /** Joining two non-empty lists of parts puts one separator between
      their joins. */
  lemma {:induction false} JoinAppend(xs: seq<string>, ys: seq<string>, sep: string)
    requires |xs| >= 1 && |ys| >= 1
    ensures Join(xs + ys, sep) == Join(xs, sep) + sep + Join(ys, sep)
    decreases |xs|
  {
    if |xs| == 1 {
      assert (xs + ys)[1..] == ys;
    } else {
      assert (xs + ys)[1..] == xs[1..] + ys;
      JoinAppend(xs[1..], ys, sep);
    }
  }

  /** A join of n parts holds the parts and exactly n - 1 separators. */
  lemma {:induction false} JoinLength(parts: seq<string>, sep: string)
    requires |parts| >= 1
    ensures |Join(parts, sep)| == TotalLength(parts) + (|parts| - 1) * |sep|
    decreases |parts|
  {
    if |parts| > 1 {
      JoinLength(parts[1..], sep);
      assert (|parts| - 1) * |sep| == (|parts| - 2) * |sep| + |sep|;
    }
  }

  /** A join of at least one part starts with the first part. */
  lemma JoinStartsWithFirst(parts: seq<string>, sep: string)
    requires |parts| >= 1
    ensures StartsWith(Join(parts, sep), parts[0])
  {
  }

  /** Prefixing the first part prefixes the join. */
  lemma JoinConsHead(x: string, parts: seq<string>, sep: string)
    requires |parts| >= 1
    ensures Join([x + parts[0]] + parts[1..], sep) == x + Join(parts, sep)
  {
    var ps := [x + parts[0]] + parts[1..];
    if |parts| > 1 {
      assert ps[1..] == parts[1..];
    }
  }

  /** `s.split(sep)` for a one-character separator: never empty, and no piece
      holds the separator. */
  function Split(s: string, sep: char): (parts: seq<string>)
    ensures |parts| >= 1
    ensures forall i :: 0 <= i < |parts| ==> sep !in parts[i]
    decreases |s|
  {
    if s == [] then [""]
    else
      var rest := Split(s[1..], sep);
      if s[0] == sep then [""] + rest
      else [[s[0]] + rest[0]] + rest[1..]
  }

  /** The last element of a sequence (Python's `xs[-1]`). */
  function Last<T>(xs: seq<T>): T
    requires |xs| >= 1
  {
    xs[|xs| - 1]
  }

  /** Every occurrence of `a` replaced by `b`. */
  function ReplaceChar(s: string, a: char, b: char): (r: string)
    ensures |r| == |s|
  {
    if s == [] then [] else [if s[0] == a then b else s[0]] + ReplaceChar(s[1..], a, b)
  }

  /** Splitting on a character and joining on another replaces the one by the other. */
  lemma {:induction false} JoinSplit(s: string, a: char, b: char)
    ensures Join(Split(s, a), [b]) == ReplaceChar(s, a, b)
    decreases |s|
  {
    if s != [] {
      var rest := Split(s[1..], a);
      JoinSplit(s[1..], a, b);
      if s[0] == a {
        assert ([""] + rest)[1..] == rest;
      } else {
        JoinConsHead([s[0]], rest, [b]);
      }
    }
  }

  /** A string without the separator splits into itself. */
  lemma {:induction false} SplitWithoutSep(s: string, sep: char)
    requires sep !in s
    ensures Split(s, sep) == [s]
    decreases |s|
  {
    if s != [] {
      SplitWithoutSep(s[1..], sep);
      assert [s[0]] + s[1..] == s;
    }
  }

  /** A string holding the separator splits into at least two pieces. */
  lemma {:induction false} SplitWithSep(s: string, sep: char)
    requires sep in s
    ensures |Split(s, sep)| >= 2
    decreases |s|
  {
    if s[0] != sep {
      SplitWithSep(s[1..], sep);
    }
  }

  /** Splitting at a separator occurrence splits the two sides independently. */
  lemma {:induction false} SplitConcat(x: string, y: string, sep: char)
    ensures Split(x + [sep] + y, sep) == Split(x, sep) + Split(y, sep)
    decreases |x|
  {
    var s := x + [sep] + y;
    if x == [] {
      assert s[1..] == y;
    } else {
      assert s[1..] == x[1..] + [sep] + y;
      SplitConcat(x[1..], y, sep);
    }
  }

  // ---------------------------------------------------------------------------
  // Paths

  /** Posix `os.path.basename`: the text after the last `/`. */
  function Basename(path: string): (r: string)
    decreases |path|
  {
    if '/' !in path then path
    else if '/' in path[1..] then Basename(path[1..])
    else path[1..]
  }

  /** The basename is the longest suffix without a `/`: it holds no `/`, it
      ends the path, and it is the whole path or is preceded by a `/`. */
  lemma {:induction false} BasenameIsLastSegment(path: string)
    ensures '/' !in Basename(path)
    ensures EndsWith(path, Basename(path))
    ensures '/' !in path ==> Basename(path) == path
    ensures '/' in path ==>
      |Basename(path)| < |path| && path[|path| - |Basename(path)| - 1] == '/'
    decreases |path|
  {
    if '/' in path {
      assert path == [path[0]] + path[1..];
      if '/' in path[1..] {
        BasenameIsLastSegment(path[1..]);
      }
    }
  }

  lemma BasenameCons(path: string)
    requires path != []
    ensures Basename(path) ==
      if '/' in path[1..] then Basename(path[1..])
      else if path[0] == '/' then path[1..]
      else path
  {
    assert path == [path[0]] + path[1..];
  }

  lemma SplitCons(s: string, sep: char)
    requires s != []
    ensures s[0] == sep ==> Split(s, sep) == [""] + Split(s[1..], sep)
    ensures s[0] != sep ==>
      Split(s, sep) == [[s[0]] + Split(s[1..], sep)[0]] + Split(s[1..], sep)[1..]
  {
  }

  lemma LastSplitCons(s: string, sep: char)
    requires s != [] && |Split(s[1..], sep)| >= 2
    ensures Last(Split(s, sep)) == Last(Split(s[1..], sep))
  {
    SplitCons(s, sep);
  }

  /** The last piece of `path.split("/")` is the basename. */
  lemma {:induction false} LastSplitIsBasename(path: string)
    ensures Last(Split(path, '/')) == Basename(path)
    decreases |path|
  {
    if path != [] {
      BasenameCons(path);
      if '/' in path[1..] {
        LastSplitIsBasename(path[1..]);
        SplitWithSep(path[1..], '/');
        LastSplitCons(path, '/');
      } else {
        SplitWithoutSep(path[1..], '/');
        SplitCons(path, '/');
        if path[0] != '/' {
          assert [path[0]] + path[1..] == path;
        }
      }
    }
  }

  // ---------------------------------------------------------------------------
  // Substring removal: s.replace(pattern, "")

  /** Whether `pattern` occurs in `s`. */
  predicate Contains(s: string, pattern: string)
    decreases |s|
  {
    |pattern| <= |s| && (s[..|pattern|] == pattern || Contains(s[1..], pattern))
  }

  /** `s.replace(pattern, "")`: occurrences are found left to right, without
      overlap, in the original string. */
  function RemoveAll(s: string, pattern: string): (r: string)
    requires |pattern| > 0
    ensures |r| <= |s|
    ensures !Contains(s, pattern) ==> r == s
    decreases |s|
  {
    if |s| < |pattern| then s
    else if s[..|pattern|] == pattern then RemoveAll(s[|pattern|..], pattern)
    else [s[0]] + RemoveAll(s[1..], pattern)
  }

  /** A name followed by the pattern loses exactly the pattern, when the name
      holds no occurrence of it and no occurrence straddles the two. */
  lemma {:induction false} RemoveAllSuffix(x: string, pattern: string)
    requires |pattern| > 0
    requires forall i :: 0 <= i < |x| ==> !StartsWith(x[i..] + pattern, pattern)
    ensures RemoveAll(x + pattern, pattern) == x
    decreases |x|
  {
    var s := x + pattern;
    if x == [] {
      assert s[|pattern|..] == [];
    } else {
      assert !StartsWith(x[0..] + pattern, pattern);
      assert x[0..] == x;
      forall i | 0 <= i < |x[1..]|
        ensures !StartsWith(x[1..][i..] + pattern, pattern)
      {
        assert x[1..][i..] == x[i + 1..];
      }
      RemoveAllSuffix(x[1..], pattern);
      assert s[1..] == x[1..] + pattern;
      assert [x[0]] + x[1..] == x;
    }
  }
}
