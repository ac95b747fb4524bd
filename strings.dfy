/**
 * The JavaScript string primitives the planner's logic is built from: `trim`,
 * `split`, `join`, `includes`, `startsWith`, `indexOf` and `toLowerCase`.
 * Strings are sequences of Unicode scalar values. Scans are written over
 * positions of one string rather than over its slices.
 */
module Strings {

  /** ECMAScript WhiteSpace and LineTerminator: what `trim` removes and what the regex class `\s` matches. */
  predicate IsWhitespace(c: char)
  {
    || c == ' ' || c == '\t' || c == '\n' || c == '\r' || c == '\U{000B}' || c == '\U{000C}'
    || c == '\U{00A0}' || c == '\U{1680}' || ('\U{2000}' <= c <= '\U{200A}')
    || c == '\U{2028}' || c == '\U{2029}' || c == '\U{202F}' || c == '\U{205F}'
    || c == '\U{3000}' || c == '\U{FEFF}'
  }

  /** The regex class `\d` (no `u` flag): ASCII digits only. */
  predicate IsDigit(c: char)
  {
    '0' <= c <= '9'
  }

  predicate AllWhitespace(s: string)
  {
    forall i :: 0 <= i < |s| ==> IsWhitespace(s[i])
  }

  /** Neither end of `s` is whitespace. */
  predicate IsTrimmed(s: string)
  {
    s == [] || (!IsWhitespace(s[0]) && !IsWhitespace(s[|s| - 1]))
  }

  /** The end of the run of whitespace that starts at position `i`. */
  function SpaceEnd(s: string, i: nat): (j: nat)
    requires i <= |s|
    ensures i <= j <= |s|
    ensures forall k :: i <= k < j ==> IsWhitespace(s[k])
    ensures j == |s| || !IsWhitespace(s[j])
    decreases |s| - i
  {
    if i < |s| && IsWhitespace(s[i]) then SpaceEnd(s, i + 1) else i
  }

  /** The start of the run of whitespace that ends at position `j`, not going below `lo`. */
  function SpaceStart(s: string, lo: nat, j: nat): (i: nat)
    requires lo <= j <= |s|
    ensures lo <= i <= j
    ensures forall k :: i <= k < j ==> IsWhitespace(s[k])
    ensures i == lo || !IsWhitespace(s[i - 1])
    decreases j
  {
    if lo < j && IsWhitespace(s[j - 1]) then SpaceStart(s, lo, j - 1) else j
  }

  /** A whitespace run is determined by its ends: the scan stops exactly there. */
  lemma {:induction false} SpaceEndAt(s: string, i: nat, j: nat)
    requires i <= j <= |s|
    requires forall k :: i <= k < j ==> IsWhitespace(s[k])
    requires j == |s| || !IsWhitespace(s[j])
    ensures SpaceEnd(s, i) == j
    decreases j - i
  {
    if i < j {
      SpaceEndAt(s, i + 1, j);
    }
  }

  lemma {:induction false} SpaceStartAt(s: string, lo: nat, i: nat, j: nat)
    requires lo <= i <= j <= |s|
    requires forall k :: i <= k < j ==> IsWhitespace(s[k])
    requires i == lo || !IsWhitespace(s[i - 1])
    ensures SpaceStart(s, lo, j) == i
    decreases j - i
  {
    if i < j {
      SpaceStartAt(s, lo, i, j - 1);
    }
  }

  /** `String.prototype.trimStart`, also the effect of replacing a leading `\s*` by nothing. */
  function TrimStart(s: string): (r: string)
    ensures r == [] || !IsWhitespace(r[0])
    ensures |r| <= |s|
  {
    s[SpaceEnd(s, 0)..]
  }

  /** `String.prototype.trimEnd`. */
  function TrimEnd(s: string): (r: string)
    ensures r == [] || !IsWhitespace(r[|r| - 1])
    ensures |r| <= |s|
  {
    s[..SpaceStart(s, 0, |s|)]
  }

  /** `String.prototype.trim`: the part between the leading and the trailing whitespace. */
  function Trim(s: string): (r: string)
    ensures IsTrimmed(r)
    ensures |r| <= |s|
  {
    var i := SpaceEnd(s, 0);
    s[i..SpaceStart(s, i, |s|)]
  }

  /** `s` is some whitespace, then its trimmed value, then some whitespace. */
  lemma TrimDecompose(s: string)
    ensures var i := SpaceEnd(s, 0);
      var j := SpaceStart(s, i, |s|);
      && Trim(s) == s[i..j]
      && AllWhitespace(s[..i]) && AllWhitespace(s[j..])
      && s == s[..i] + Trim(s) + s[j..]
  {
    var i := SpaceEnd(s, 0);
    var j := SpaceStart(s, i, |s|);
    WhitespaceSlice(s, 0, i);
    WhitespaceSlice(s, j, |s|);
    SliceThree(s, i, j);
  }

  lemma SliceThree(s: string, i: nat, j: nat)
    requires i <= j <= |s|
    ensures s == s[..i] + s[i..j] + s[j..]
  {
    assert s[..j] == s[..i] + s[i..j];
  }

  /** A run of whitespace positions, as a string. */
  lemma WhitespaceSlice(s: string, i: nat, j: nat)
    requires i <= j <= |s|
    requires forall k :: i <= k < j ==> IsWhitespace(s[k])
    ensures AllWhitespace(s[i..j])
  {
    forall k | 0 <= k < j - i ensures IsWhitespace(s[i..j][k]) { assert s[i..j][k] == s[i + k]; }
  }

  /** The trimmed part of a string without leading whitespace starts where the string starts. */
  lemma TrimStartTrimmed(s: string)
    requires s == [] || !IsWhitespace(s[0])
    ensures SpaceEnd(s, 0) == 0
  {
    SpaceEndAt(s, 0, 0);
  }

  /** Trim is characterised by its result: whatever whitespace surrounds a trimmed string is removed, and nothing else. */
  lemma TrimOfPadded(a: string, m: string, b: string)
    requires AllWhitespace(a) && AllWhitespace(b) && IsTrimmed(m)
    ensures Trim(a + m + b) == m
  {
    var s := a + m + b;
    if m == [] {
      assert forall k :: 0 <= k < |s| ==> IsWhitespace(s[k]) by {
        forall k | 0 <= k < |s| ensures IsWhitespace(s[k]) {
          if k < |a| { assert s[k] == a[k]; } else { assert s[k] == b[k - |a|]; }
        }
      }
      SpaceEndAt(s, 0, |s|);
    } else {
      var i, j := |a|, |a| + |m|;
      assert s[i] == m[0] && s[j - 1] == m[|m| - 1];
      assert forall k :: 0 <= k < i ==> IsWhitespace(s[k]) by {
        forall k | 0 <= k < i ensures IsWhitespace(s[k]) { assert s[k] == a[k]; }
      }
      assert forall k :: j <= k < |s| ==> IsWhitespace(s[k]) by {
        forall k | j <= k < |s| ensures IsWhitespace(s[k]) { assert s[k] == b[k - j]; }
      }
      SpaceEndAt(s, 0, i);
      SpaceStartAt(s, i, j, |s|);
      assert s[i..j] == m;
    }
  }

  lemma TrimOfTrimmed(s: string)
    requires IsTrimmed(s)
    ensures Trim(s) == s
  {
    TrimOfPadded([], s, []);
    assert [] + s + [] == s;
  }

  /** `trimStart` removes exactly a leading run of whitespace. */
  lemma TrimStartOfPadded(w: string, t: string)
    requires AllWhitespace(w) && (t == [] || !IsWhitespace(t[0]))
    ensures TrimStart(w + t) == t
  {
    var s := w + t;
    assert forall k :: 0 <= k < |w| ==> IsWhitespace(s[k]) by {
      forall k | 0 <= k < |w| ensures IsWhitespace(s[k]) { assert s[k] == w[k]; }
    }
    if t != [] { assert s[|w|] == t[0]; }
    SpaceEndAt(s, 0, |w|);
    assert s[|w|..] == t;
  }

  /** `trimEnd` removes exactly a trailing run of whitespace. */
  lemma TrimEndOfPadded(t: string, w: string)
    requires AllWhitespace(w) && (t == [] || !IsWhitespace(t[|t| - 1]))
    ensures TrimEnd(t + w) == t
  {
    var s := t + w;
    assert forall k :: |t| <= k < |s| ==> IsWhitespace(s[k]) by {
      forall k | |t| <= k < |s| ensures IsWhitespace(s[k]) { assert s[k] == w[k - |t|]; }
    }
    if t != [] { assert s[|t| - 1] == t[|t| - 1]; }
    SpaceStartAt(s, 0, |t|, |s|);
    assert s[..|t|] == t;
  }

  /** Trailing whitespace does not change the trimmed value. */
  lemma TrimAppendWhitespace(s: string, w: string)
    requires AllWhitespace(w)
    ensures Trim(s + w) == Trim(s)
  {
    TrimDecompose(s);
    var i := SpaceEnd(s, 0);
    var j := SpaceStart(s, i, |s|);
    var b := s[j..];
    Regroup(s[..i], Trim(s), b, w);
    AllWhitespaceConcat(b, w);
    TrimOfPadded(s[..i], Trim(s), b + w);
  }

  lemma Regroup(x: string, m: string, b: string, w: string)
    ensures (x + m + b) + w == x + m + (b + w)
  {
  }

  lemma AllWhitespaceConcat(x: string, y: string)
    requires AllWhitespace(x) && AllWhitespace(y)
    ensures AllWhitespace(x + y)
  {
    forall k | 0 <= k < |x + y| ensures IsWhitespace((x + y)[k]) {
      if k < |x| { assert (x + y)[k] == x[k]; } else { assert (x + y)[k] == y[k - |x|]; }
    }
  }

  /** A head that starts with a non-blank character survives trimming untouched. */
  lemma TrimKeepsHead(x: string, y: string)
    requires x != [] && !IsWhitespace(x[0])
    requires y != [] && !IsWhitespace(y[0])
    ensures Trim(x + y) == x + Trim(y)
  {
    TrimDecompose(y);
    TrimStartTrimmed(y);
    var r := Trim(y);
    var b := y[SpaceStart(y, 0, |y|)..];
    assert y == r + b;
    assert r != [] by { assert y[..0] == []; }
    assert x + y == [] + (x + r) + b;
    TrimOfPadded([], x + r, b);
  }

  /** `s.split(sep)`: the maximal `sep`-free pieces of `s`, in order; the empty string gives `[""]`. */
  function Split(s: string, sep: char): (parts: seq<string>)
    ensures |parts| >= 1
  {
    if s == [] then [[]]
    else
      var rest := Split(s[1..], sep);
      if s[0] == sep then [[]] + rest else [[s[0]] + rest[0]] + rest[1..]
  }

  /** No piece of a split contains the separator. */
  lemma {:induction false} SplitPiecesSeparatorFree(s: string, sep: char)
    ensures forall p <- Split(s, sep) :: sep !in p
  {
    if s != [] {
      SplitPiecesSeparatorFree(s[1..], sep);
    }
  }

  /** `parts.join(sep)`. */
  function Join(parts: seq<string>, sep: char): string
  {
    if |parts| == 0 then []
    else if |parts| == 1 then parts[0]
    else parts[0] + [sep] + Join(parts[1..], sep)
  }

  /** Joining the pieces of a split gives back the string. */
  lemma {:induction false} JoinSplit(s: string, sep: char)
    ensures Join(Split(s, sep), sep) == s
  {
    if s != [] {
      var rest := Split(s[1..], sep);
      JoinSplit(s[1..], sep);
      if s[0] == sep {
        assert Split(s, sep) == [[]] + rest;
        assert ([[]] + rest)[1..] == rest;
      } else {
        var parts := [[s[0]] + rest[0]] + rest[1..];
        assert Split(s, sep) == parts;
        if |rest| == 1 {
          assert Join(rest, sep) == rest[0];
        } else {
          assert parts[1..] == rest[1..];
          assert Join(rest, sep) == rest[0] + [sep] + Join(rest[1..], sep);
        }
      }
    }
  }

  lemma {:induction false} SplitWithoutSeparator(s: string, sep: char)
    requires sep !in s
    ensures Split(s, sep) == [s]
  {
    if s != [] {
      SplitWithoutSeparator(s[1..], sep);
      assert [s[0]] + s[1..] == s;
    }
  }

  /** Splitting distributes over a separator. */
  lemma {:induction false} SplitConcat(a: string, b: string, sep: char)
    ensures Split(a + [sep] + b, sep) == Split(a, sep) + Split(b, sep)
  {
    var s := a + [sep] + b;
    if a == [] {
      assert s == [sep] + b;
      assert s[1..] == b;
    } else {
      assert s[0] == a[0];
      assert s[1..] == a[1..] + [sep] + b;
      SplitConcat(a[1..], b, sep);
      if a[0] != sep {
        ConsAppend(Split(a[1..], sep), Split(b, sep));
      }
    }
  }

  lemma ConsAppend<T>(xs: seq<T>, ys: seq<T>)
    requires |xs| >= 1
    ensures (xs + ys)[0] == xs[0] && (xs + ys)[1..] == xs[1..] + ys
  {
  }

  /** Splitting a join of separator-free pieces gives back the pieces. */
  lemma {:induction false} SplitJoin(parts: seq<string>, sep: char)
    requires |parts| >= 1
    requires forall p <- parts :: sep !in p
    ensures Split(Join(parts, sep), sep) == parts
  {
    if |parts| == 1 {
      SplitWithoutSeparator(parts[0], sep);
    } else {
      var j := Join(parts[1..], sep);
      assert Join(parts, sep) == parts[0] + [sep] + j;
      assert parts[0] in parts;
      SplitWithoutSeparator(parts[0], sep);
      forall p | p in parts[1..] ensures sep !in p { assert p in parts; }
      SplitJoin(parts[1..], sep);
      SplitConcat(parts[0], j, sep);
      assert parts == [parts[0]] + parts[1..];
    }
  }

  lemma {:induction false} JoinAppend(xs: seq<string>, ys: seq<string>, sep: char)
    requires |xs| >= 1 && |ys| >= 1
    ensures Join(xs + ys, sep) == Join(xs, sep) + [sep] + Join(ys, sep)
  {
    if |xs| == 1 {
      assert (xs + ys)[1..] == ys;
    } else {
      assert (xs + ys)[1..] == xs[1..] + ys;
      JoinAppend(xs[1..], ys, sep);
    }
  }

  /** Every character of a piece of a split comes from the string split. */
  lemma {:induction false} SplitPiecesFromSource(s: string, sep: char)
    ensures forall p <- Split(s, sep), c <- p :: c in s
  {
    if s != [] {
      SplitPiecesFromSource(s[1..], sep);
      var rest := Split(s[1..], sep);
      forall p <- Split(s, sep), c <- p ensures c in s {
        if p in rest {
          assert c in s[1..];
        } else if s[0] != sep {
          assert p == [s[0]] + rest[0];
          if c != s[0] { assert c in rest[0]; assert c in s[1..]; }
        }
      }
    }
  }

  /** `s.startsWith(prefix)`. */
  predicate StartsWith(s: string, prefix: string)
  {
    |prefix| <= |s| && s[..|prefix|] == prefix
  }

  /** `s.includes(part)`. */
  predicate Contains(s: string, part: string)
  {
    exists i :: 0 <= i <= |s| - |part| && OccursAt(s, part, i)
  }

  predicate OccursAt(s: string, part: string, i: int)
    requires 0 <= i <= |s| - |part|
  {
    s[i..i + |part|] == part
  }

  /** `toLowerCase` on the capitals `A`-`Z` and U+0400-U+042F (Cyrillic `Ѐ`-`Я`); every other character is kept. */
  function LowerChar(c: char): (r: char)
    ensures IsWhitespace(r) <==> IsWhitespace(c)
    ensures ('A' <= c <= 'Z' || '\U{0400}' <= c <= '\U{042F}') <==> r != c
    ensures !('A' <= r <= 'Z' || '\U{0400}' <= r <= '\U{042F}')
  {
    if 'A' <= c <= 'Z' then (c as int + 32) as char
    else if '\U{0410}' <= c <= '\U{042F}' then (c as int + 32) as char
    else if '\U{0400}' <= c <= '\U{040F}' then (c as int + 80) as char
    else c
  }

  /** `s.toLowerCase()`, character by character. */
  function Lower(s: string): (r: string)
    ensures |r| == |s|
    ensures forall i :: 0 <= i < |s| ==> r[i] == LowerChar(s[i])
  {
    if s == [] then [] else [LowerChar(s[0])] + Lower(s[1..])
  }

  lemma LowerIdempotent(s: string)
    ensures Lower(Lower(s)) == Lower(s)
  {
  }

  lemma LowerKeepsTrimmed(s: string)
    requires IsTrimmed(s)
    ensures IsTrimmed(Lower(s))
  {
  }

  /** Lower-casing keeps every whitespace run where it was. */
  lemma {:induction false} SpaceEndLower(s: string, i: nat)
    requires i <= |s|
    ensures SpaceEnd(Lower(s), i) == SpaceEnd(s, i)
    decreases |s| - i
  {
    if i < |s| && IsWhitespace(s[i]) {
      SpaceEndLower(s, i + 1);
    }
  }

  lemma {:induction false} SpaceStartLower(s: string, lo: nat, j: nat)
    requires lo <= j <= |s|
    ensures SpaceStart(Lower(s), lo, j) == SpaceStart(s, lo, j)
    decreases j
  {
    if lo < j && IsWhitespace(s[j - 1]) {
      SpaceStartLower(s, lo, j - 1);
    }
  }

  /** Trimming and lower-casing commute. */
  lemma {:induction false} TrimLower(s: string)
    ensures Trim(Lower(s)) == Lower(Trim(s))
  {
    SpaceEndLower(s, 0);
    var i := SpaceEnd(s, 0);
    SpaceStartLower(s, i, |s|);
    var j := SpaceStart(s, i, |s|);
    LowerSlice(s, i, j);
  }

  /** Lower-casing a slice is slicing the lower-cased string. */
  lemma {:induction false} LowerSlice(s: string, i: nat, j: nat)
    requires i <= j <= |s|
    ensures Lower(s)[i..j] == Lower(s[i..j])
  {
    var a, b := Lower(s)[i..j], Lower(s[i..j]);
    assert |a| == |b|;
    forall k | 0 <= k < |a| ensures a[k] == b[k] {
      assert a[k] == LowerChar(s[i + k]);
    }
  }

  /** A string trims to nothing exactly when it is all whitespace. */
  lemma {:induction false} TrimEmptyIff(s: string)
    ensures Trim(s) == [] <==> AllWhitespace(s)
  {
    if Trim(s) == [] {
      TrimDecompose(s);
      var i := SpaceEnd(s, 0);
      var j := SpaceStart(s, i, |s|);
      AllWhitespaceConcat(s[..i], s[j..]);
      assert s == s[..i] + s[j..];
    } else if AllWhitespace(s) {
      TrimOfPadded(s, [], []);
    }
  }

  /** `xs.indexOf(x)`: the first position of `x`, or -1. */
  function IndexOf<T(==)>(xs: seq<T>, x: T): (r: int)
    ensures -1 <= r < |xs|
    ensures r == -1 <==> x !in xs
    ensures 0 <= r ==> xs[r] == x && forall k :: 0 <= k < r ==> xs[k] != x
  {
    if xs == [] then -1
    else if xs[0] == x then 0
    else
      var k := IndexOf(xs[1..], x);
      if k == -1 then -1 else k + 1
  }
}
