/**
 * The line markup of a day's text (src/lib/text-parser.ts): every line gets a
 * completion status from inline `++` / `+-` markers, a type from an ordered rule
 * list (header, subtask, task) and an optional leading time token.
 * The regular expressions of the source are replaced by small scanners over
 * positions; the backtracking of each expression is argued where it matters.
 */
module TextParser {
  import opened Strings
  import opened Wrappers

  /** The `type` of a parsed line. `Note` exists in the source's type but is never assigned. */
  datatype LineType = Header | Task | Subtask | Note

  /** The `status` of a parsed line: `'none'` is `Unmarked`. */
  datatype Status = Unmarked | Done | Partial

  datatype ParsedLine = ParsedLine(
    text: string,
    displayText: string,
    lineType: LineType,
    status: Status,
    time: Option<string>)

  datatype Stats = Stats(total: nat, done: nat, partial: nat)

  // ---------------------------------------------------------------------------
  // Status markers: `/\s*\+\+\s*/g` and `/\s*\+-\s*/g` replaced by ''

  /** Does `\s*` followed by the two marker characters match at the start of `s`? */
  predicate MarkerAt(s: string, m0: char, m1: char)
  {
    var k := SpaceEnd(s, 0);
    k + 2 <= |s| && s[k] == m0 && s[k + 1] == m1
  }

  /** A global replace of `\s*` m0 m1 `\s*` by nothing, scanning left to right.
      Neither marker character is whitespace, so the greedy `\s*` never has to give characters back. */
  function StripMarker(s: string, m0: char, m1: char): (r: string)
    ensures |r| <= |s|
    decreases |s|
  {
    if s == [] then []
    else if MarkerAt(s, m0, m1) then StripMarker(s[SpaceEnd(s, SpaceEnd(s, 0) + 2)..], m0, m1)
    else [s[0]] + StripMarker(s[1..], m0, m1)
  }

  /** A string that does not contain the marker is left as it is. */
  lemma {:induction false} StripMarkerAbsent(s: string, m0: char, m1: char)
    requires !Contains(s, [m0, m1])
    ensures StripMarker(s, m0, m1) == s
  {
    if s != [] {
      if MarkerAt(s, m0, m1) {
        var k := SpaceEnd(s, 0);
        assert OccursAt(s, [m0, m1], k);
        assert false;
      }
      assert !Contains(s[1..], [m0, m1]) by {
        if Contains(s[1..], [m0, m1]) {
          var i :| 0 <= i <= |s[1..]| - 2 && OccursAt(s[1..], [m0, m1], i);
          assert OccursAt(s, [m0, m1], i + 1);
        }
      }
      StripMarkerAbsent(s[1..], m0, m1);
      assert [s[0]] + s[1..] == s;
    }
  }

  /** A first character that is neither whitespace nor the marker's first character is kept. */
  lemma StripMarkerKeepsHead(s: string, m0: char, m1: char)
    requires s != [] && !IsWhitespace(s[0]) && s[0] != m0
    ensures StripMarker(s, m0, m1) == [s[0]] + StripMarker(s[1..], m0, m1)
  {
    TrimStartTrimmed(s);
  }

  function StatusOf(trimmed: string): Status
  {
    if Contains(trimmed, "++") then Done
    else if Contains(trimmed, "+-") then Partial
    else Unmarked
  }

  /** The display text after the status step. */
  function AfterStatus(trimmed: string): string
  {
    match StatusOf(trimmed)
    case Done => StripMarker(trimmed, '+', '+')
    case Partial => StripMarker(trimmed, '+', '-')
    case _ => trimmed
  }

  // ---------------------------------------------------------------------------
  // Line types

  /** `[A-ZА-ЯЁ]` */
  predicate IsCapital(c: char)
  {
    ('A' <= c <= 'Z') || ('\U{0410}' <= c <= '\U{042F}') || c == '\U{0401}'
  }

  /** `[A-Za-zА-Яа-яЁё]` */
  predicate IsLetter(c: char)
  {
    ('A' <= c <= 'Z') || ('a' <= c <= 'z') || ('\U{0410}' <= c <= '\U{044F}') || c == '\U{0401}' || c == '\U{0451}'
  }

  /** `/^[A-ZА-ЯЁ][A-Za-zА-Яа-яЁё]*$/`: one word that starts with a capital. */
  predicate IsCapitalizedWord(s: string)
  {
    |s| >= 1 && IsCapital(s[0]) && forall i :: 1 <= i < |s| ==> IsLetter(s[i])
  }

  /** `/^[A-ZА-ЯЁ]{2,}$/`: an acronym. */
  predicate IsAcronym(s: string)
  {
    |s| >= 2 && forall i :: 0 <= i < |s| ==> IsCapital(s[i])
  }

  predicate IsHeaderText(trimmed: string)
  {
    IsCapitalizedWord(trimmed) || IsAcronym(trimmed)
  }

  /** Every acronym is already a capitalised word, so the second header rule adds nothing. */
  lemma AcronymIsCapitalizedWord(s: string)
    ensures IsAcronym(s) ==> IsCapitalizedWord(s)
  {
    if IsAcronym(s) {
      forall i | 1 <= i < |s| ensures IsLetter(s[i]) {
        assert IsCapital(s[i]);
      }
    }
  }

  predicate IsDash(c: char)
  {
    c == '\U{2014}' || c == '-'
  }

  /** `/^[—\-]/` */
  predicate StartsWithDash(s: string)
  {
    s != [] && IsDash(s[0])
  }

  function TypeOf(trimmed: string): LineType
  {
    if IsHeaderText(trimmed) then Header
    else if StartsWithDash(trimmed) then Subtask
    else Task
  }

  /** `s.replace(/^[—\-]\s*\/, '')` */
  function StripDash(s: string): string
  {
    if StartsWithDash(s) then TrimStart(s[1..]) else s
  }

  /** The display text just before the time step. */
  function BeforeTime(line: string): string
  {
    var trimmed := Trim(line);
    var marked := AfterStatus(trimmed);
    if TypeOf(trimmed) == Subtask then StripDash(marked) else marked
  }

  // ---------------------------------------------------------------------------
  // Time tokens: /^(\d{1,2}(?::\d{2})?\s*-\s*\d{1,2}(?::\d{2})?|\d{1,2}:\d{2}|\d{1,2})\s+/

  predicate AllDigits(s: string)
  {
    forall i :: 0 <= i < |s| ==> IsDigit(s[i])
  }

  /** An hour (`\d{1,2}`) or an hour and minutes (`\d{1,2}:\d{2}`). */
  predicate IsClock(t: string)
  {
    || (1 <= |t| <= 2 && AllDigits(t))
    || (4 <= |t| <= 5 && t[|t| - 3] == ':' && forall k :: 0 <= k < |t| && k != |t| - 3 ==> IsDigit(t[k]))
  }

  /** A time token is a clock, or two clocks around one hyphen with optional whitespace. */
  predicate IsTimeToken(t: string)
  {
    if '-' in t then
      var q := IndexOf(t, '-');
      IsClock(TrimEnd(t[..q])) && IsClock(TrimStart(t[q + 1..]))
    else IsClock(t)
  }

  /** The end of the run of digits that starts at position `i`. */
  function DigitEnd(s: string, i: nat): (j: nat)
    requires i <= |s|
    ensures i <= j <= |s|
    ensures forall k :: i <= k < j ==> IsDigit(s[k])
    ensures j == |s| || !IsDigit(s[j])
    decreases |s| - i
  {
    if i < |s| && IsDigit(s[i]) then DigitEnd(s, i + 1) else i
  }

  /** `\d{1,2}` at `i`. Every continuation of the expression needs a non-digit next, so a match
      must take the whole run of digits and the run must be one or two long. */
  function HourEnd(s: string, i: nat): (e: Option<nat>)
    requires i <= |s|
    ensures e.Some? ==> i < e.value <= i + 2 && e.value <= |s|
  {
    var j := DigitEnd(s, i);
    if j - i == 1 || j - i == 2 then Some(j) else None
  }

  /** `:\d{2}` at `h`. */
  predicate MinutesAt(s: string, h: nat)
  {
    h + 3 <= |s| && s[h] == ':' && IsDigit(s[h + 1]) && IsDigit(s[h + 2])
  }

  /** `\d{1,2}(?::\d{2})?` at `i`, taking the minutes whenever they are there: leaving them out
      would put `:` where the rest of the expression needs whitespace or a hyphen. */
  function ClockEnd(s: string, i: nat): (e: Option<nat>)
    requires i <= |s|
    ensures e.Some? ==> i < e.value <= |s|
  {
    match HourEnd(s, i)
    case None => None
    case Some(h) => if MinutesAt(s, h) then Some(h + 3) else Some(h)
  }

  /** First alternative: `\d{1,2}(?::\d{2})?\s*-\s*\d{1,2}(?::\d{2})?` */
  function RangeEnd(s: string): (e: Option<nat>)
    ensures e.Some? ==> e.value <= |s|
  {
    match ClockEnd(s, 0)
    case None => None
    case Some(a) =>
      var b := SpaceEnd(s, a);
      if b < |s| && s[b] == '-' then ClockEnd(s, SpaceEnd(s, b + 1)) else None
  }

  /** Second alternative: `\d{1,2}:\d{2}` */
  function ColonEnd(s: string): (e: Option<nat>)
    ensures e.Some? ==> e.value <= |s|
  {
    match HourEnd(s, 0)
    case None => None
    case Some(h) => if MinutesAt(s, h) then Some(h + 3) else None
  }

  /** A match of the time expression: `token` is group 1, `length` the length of the whole match. */
  datatype TimeMatch = TimeMatch(token: string, length: nat)

  /** An alternative ending at `g` matched; the expression still needs `\s+` after it, and takes all of it. */
  function FollowedByWhitespace(s: string, g: Option<nat>): (m: Option<TimeMatch>)
    requires g.Some? ==> g.value <= |s|
    ensures m.Some? <==> g.Some? && g.value < |s| && IsWhitespace(s[g.value])
    ensures m.Some? ==> m.value.token == s[..g.value] && g.value < m.value.length <= |s|
    ensures m.Some? ==> AllWhitespace(s[g.value..m.value.length])
    ensures m.Some? ==> m.value.length == |s| || !IsWhitespace(s[m.value.length])
  {
    if g.Some? && g.value < |s| && IsWhitespace(s[g.value]) then
      var e := SpaceEnd(s, g.value);
      WhitespaceSlice(s, g.value, e);
      Some(TimeMatch(s[..g.value], e))
    else None
  }

  /** The time expression, alternatives tried in order. */
  function MatchTime(s: string): (m: Option<TimeMatch>)
    ensures m.Some? ==> 0 < |m.value.token| < m.value.length <= |s|
    ensures m.Some? ==> s[..|m.value.token|] == m.value.token && IsDigit(s[0])
    ensures m.Some? ==> AllWhitespace(s[|m.value.token|..m.value.length])
    ensures m.Some? ==> m.value.length == |s| || !IsWhitespace(s[m.value.length])
    ensures m.Some? ==> IsTimeToken(m.value.token)
  {
    var range := FollowedByWhitespace(s, RangeEnd(s));
    if range.Some? then
      RangeIsTimeToken(s, RangeEnd(s).value);
      range
    else
      var colon := FollowedByWhitespace(s, ColonEnd(s));
      if colon.Some? then
        ColonIsTimeToken(s, ColonEnd(s).value);
        colon
      else
        var hour := FollowedByWhitespace(s, HourEnd(s, 0));
        if hour.Some? then
          HourIsTimeToken(s, HourEnd(s, 0).value);
          hour
        else None
  }

  /** What a clock scan covers is a clock. */
  lemma ClockEndIsClock(s: string, i: nat, e: nat)
    requires i <= |s| && ClockEnd(s, i) == Some(e)
    ensures IsClock(s[i..e]) && IsDigit(s[i])
  {
    var h := HourEnd(s, i).value;
    var t := s[i..e];
    if MinutesAt(s, h) {
      forall k | 0 <= k < |t| && k != |t| - 3 ensures IsDigit(t[k]) { assert t[k] == s[i + k]; }
    } else {
      forall k | 0 <= k < |t| ensures IsDigit(t[k]) { assert t[k] == s[i + k]; }
    }
  }

  lemma ClockHasNoDashOrSpace(t: string)
    requires IsClock(t)
    ensures '-' !in t
    ensures forall i :: 0 <= i < |t| ==> !IsWhitespace(t[i])
    ensures t != [] && IsDigit(t[0]) && !IsWhitespace(t[|t| - 1])
  {
  }

  lemma ClockIsTimeToken(t: string)
    requires IsClock(t)
    ensures IsTimeToken(t)
  {
    ClockHasNoDashOrSpace(t);
  }

  /** Two clocks around a hyphen, with whitespace on either side, form a time token. */
  lemma PaddedRangeIsTimeToken(t: string, x: string, w1: string, w2: string, y: string)
    requires IsClock(x) && IsClock(y) && AllWhitespace(w1) && AllWhitespace(w2)
    requires t == x + w1 + "-" + w2 + y
    ensures IndexOf(t, '-') == |x + w1| && TrimEnd(t[..|x + w1|]) == x && TrimStart(t[|x + w1| + 1..]) == y
    ensures IsTimeToken(t)
  {
    var b := |x + w1|;
    ClockHasNoDashOrSpace(x);
    ClockHasNoDashOrSpace(y);
    assert t[b] == '-';
    assert t[..b] == x + w1;
    assert t[b + 1..] == w2 + y;
    forall i | 0 <= i < b ensures t[i] != '-' {
      if i < |x| { assert t[i] == x[i]; } else { assert t[i] == w1[i - |x|]; }
    }
    DashIndex(t, b);
    TrimEndOfPadded(x, w1);
    TrimStartOfPadded(w2, y);
  }

  /** The position of the first hyphen. */
  lemma DashIndex(t: string, b: nat)
    requires b < |t| && t[b] == '-'
    requires forall i :: 0 <= i < b ==> t[i] != '-'
    ensures IndexOf(t, '-') == b
  {
    assert t[b] in t;
  }

  /** Cutting a string at four points, the third of them a hyphen. */
  lemma SliceFive(s: string, a: nat, b: nat, c: nat, e: nat)
    requires a <= b < c <= e <= |s| && s[b] == '-'
    ensures s[..e] == s[0..a] + s[a..b] + "-" + s[b + 1..c] + s[c..e]
  {
    assert s[..e] == s[0..a] + s[a..b] + s[b..b + 1] + s[b + 1..c] + s[c..e];
  }

  lemma RangeIsTimeToken(s: string, e: nat)
    requires RangeEnd(s) == Some(e)
    ensures e <= |s| && IsTimeToken(s[..e]) && IsDigit(s[0])
  {
    var a := ClockEnd(s, 0).value;
    var b := SpaceEnd(s, a);
    var c := SpaceEnd(s, b + 1);
    assert ClockEnd(s, c) == Some(e);
    ClockEndIsClock(s, 0, a);
    ClockEndIsClock(s, c, e);
    WhitespaceSlice(s, a, b);
    WhitespaceSlice(s, b + 1, c);
    SliceFive(s, a, b, c, e);
    PaddedRangeIsTimeToken(s[..e], s[0..a], s[a..b], s[b + 1..c], s[c..e]);
  }

  lemma ColonIsTimeToken(s: string, e: nat)
    requires ColonEnd(s) == Some(e)
    ensures e <= |s| && IsTimeToken(s[..e]) && IsDigit(s[0])
  {
    assert ClockEnd(s, 0) == Some(e);
    ClockEndIsClock(s, 0, e);
    assert s[0..e] == s[..e];
    ClockIsTimeToken(s[..e]);
  }

  lemma HourIsTimeToken(s: string, e: nat)
    requires HourEnd(s, 0) == Some(e)
    ensures e <= |s| && IsTimeToken(s[..e]) && IsDigit(s[0])
  {
    var t := s[..e];
    forall k | 0 <= k < |t| ensures IsDigit(t[k]) { assert t[k] == s[k]; }
    ClockIsTimeToken(t);
  }

  /** `token.replace(/\s*-\s*\/, ' - ')`: the leftmost match of `\s*-\s*`, which takes all the
      whitespace on both sides of the hyphen; a shorter `\s*` would leave whitespace where the
      hyphen is needed. */
  function NormalizeDash(s: string): string
  {
    NormalizeFrom(s, 0)
  }

  /** The replacement, searching for the match from position `i` on. */
  function NormalizeFrom(s: string, i: nat): string
    requires i <= |s|
    decreases |s| - i
  {
    if i == |s| then []
    else
      var w := SpaceEnd(s, i);
      if w < |s| && s[w] == '-' then " - " + s[SpaceEnd(s, w + 1)..]
      else [s[i]] + NormalizeFrom(s, i + 1)
  }

  lemma {:induction false} NormalizeWithoutHyphen(s: string, i: nat)
    requires i <= |s|
    requires forall k :: i <= k < |s| ==> s[k] != '-'
    ensures NormalizeFrom(s, i) == s[i..]
    decreases |s| - i
  {
    if i < |s| {
      NormalizeWithoutHyphen(s, i + 1);
      assert s[i..] == [s[i]] + s[i + 1..];
    }
  }

  /** Where the pattern cannot match, characters are copied. */
  lemma {:induction false} NormalizeCopiesUpTo(s: string, i: nat, p: nat, tail: string)
    requires i <= p <= |s|
    requires forall k :: i <= k < p ==> SpaceEnd(s, k) == |s| || s[SpaceEnd(s, k)] != '-'
    requires NormalizeFrom(s, p) == tail
    ensures NormalizeFrom(s, i) == s[i..p] + tail
    decreases p - i
  {
    if i == p {
      assert s[i..p] == [];
    } else {
      NormalizeCopies(s, i);
      NormalizeCopiesUpTo(s, i + 1, p, tail);
      ConsSlice(s, i, p, tail);
    }
  }

  /** Up to the whitespace in front of the first hyphen, characters are copied. */
  lemma NormalizeBeforeHyphen(s: string, q: nat, p: nat, e: nat)
    requires q < |s| && s[q] == '-' && forall k :: 0 <= k < q ==> s[k] != '-'
    requires p == SpaceStart(s, 0, q) && e == SpaceEnd(s, q + 1)
    ensures NormalizeFrom(s, 0) == s[..p] + (" - " + s[e..])
  {
    SpaceEndAt(s, p, q);
    NormalizeAtHyphen(s, p);
    NoMatchBefore(s, q);
    NormalizeCopiesUpTo(s, 0, p, " - " + s[e..]);
    assert s[0..p] == s[..p];
  }

  lemma AppendAssoc(a: string, b: string, c: string)
    ensures a + b + c == a + (b + c)
  {
  }

  lemma NormalizeAtHyphen(s: string, i: nat)
    requires i <= |s| && SpaceEnd(s, i) < |s| && s[SpaceEnd(s, i)] == '-'
    ensures NormalizeFrom(s, i) == " - " + s[SpaceEnd(s, SpaceEnd(s, i) + 1)..]
  {
  }

  lemma NormalizeCopies(s: string, i: nat)
    requires i < |s| && (SpaceEnd(s, i) == |s| || s[SpaceEnd(s, i)] != '-')
    ensures NormalizeFrom(s, i) == [s[i]] + NormalizeFrom(s, i + 1)
  {
  }

  lemma ConsSlice(s: string, i: nat, p: nat, rest: string)
    requires i < p <= |s|
    ensures [s[i]] + (s[i + 1..p] + rest) == s[i..p] + rest
  {
    assert s[i..p] == [s[i]] + s[i + 1..p];
  }

  lemma NoMatchBefore(s: string, q: nat)
    requires q < |s| && forall k :: 0 <= k < q ==> s[k] != '-'
    ensures forall k :: 0 <= k < SpaceStart(s, 0, q) ==> SpaceEnd(s, k) == |s| || s[SpaceEnd(s, k)] != '-'
  {
    forall k | 0 <= k < SpaceStart(s, 0, q) ensures SpaceEnd(s, k) == |s| || s[SpaceEnd(s, k)] != '-' {
      NoHyphenBefore(s, k, q);
    }
  }

  /** Before the whitespace in front of the first hyphen, the pattern cannot match. */
  lemma NoHyphenBefore(s: string, i: nat, q: nat)
    requires q < |s| && forall k :: 0 <= k < q ==> s[k] != '-'
    requires i < SpaceStart(s, 0, q)
    ensures SpaceEnd(s, i) < SpaceStart(s, 0, q)
  {
    var p := SpaceStart(s, 0, q);
    assert !IsWhitespace(s[p - 1]);
  }

  /** The first hyphen, with the whitespace around it, becomes `" - "`; a string without a hyphen is unchanged. */
  lemma NormalizeFirstHyphen(s: string)
    ensures '-' !in s ==> NormalizeDash(s) == s
    ensures '-' in s ==> var q := IndexOf(s, '-');
      NormalizeDash(s) == TrimEnd(s[..q]) + " - " + TrimStart(s[q + 1..])
  {
    if '-' in s {
      NormalizeAtFirstHyphen(s, IndexOf(s, '-'));
    } else {
      NormalizeWithoutHyphen(s, 0);
    }
  }

  lemma NormalizeAtFirstHyphen(s: string, q: nat)
    requires q < |s| && s[q] == '-' && forall k :: 0 <= k < q ==> s[k] != '-'
    ensures NormalizeDash(s) == TrimEnd(s[..q]) + " - " + TrimStart(s[q + 1..])
  {
    var p, e := SpaceStart(s, 0, q), SpaceEnd(s, q + 1);
    NormalizeBeforeHyphen(s, q, p, e);
    AppendAssoc(s[..p], " - ", s[e..]);
    TrimEndPrefix(s, q);
    TrimStartSuffix(s, q + 1);
  }

  lemma TrimEndPrefix(s: string, n: nat)
    requires n <= |s|
    ensures TrimEnd(s[..n]) == s[..SpaceStart(s, 0, n)]
  {
    var t := s[..n];
    var p := SpaceStart(s, 0, n);
    forall k | p <= k < n ensures IsWhitespace(t[k]) { assert t[k] == s[k]; }
    if p > 0 { assert t[p - 1] == s[p - 1]; }
    SpaceStartAt(t, 0, p, n);
  }

  lemma TrimStartSuffix(s: string, n: nat)
    requires n <= |s|
    ensures TrimStart(s[n..]) == s[SpaceEnd(s, n)..]
  {
    var t := s[n..];
    var e := SpaceEnd(s, n);
    forall k | 0 <= k < e - n ensures IsWhitespace(t[k]) { assert t[k] == s[n + k]; }
    if e < |s| { assert t[e - n] == s[e]; }
    SpaceEndAt(t, 0, e - n);
    assert t[e - n..] == s[e..];
  }

  // ---------------------------------------------------------------------------
  // Lines

  /** `parseContent`'s per-line mapping. */
  function ParseLine(line: string): (p: ParsedLine)
    ensures p.text == line
    ensures p.lineType != Note
  {
    var trimmed := Trim(line);
    var before := BeforeTime(line);
    match MatchTime(before)
    case None => ParsedLine(line, before, TypeOf(trimmed), StatusOf(trimmed), None)
    case Some(tm) => ParsedLine(line, before[tm.length..], TypeOf(trimmed), StatusOf(trimmed), Some(NormalizeDash(tm.token)))
  }

  /** The status comes from the markers of the trimmed line, `++` first. */
  lemma StatusFromMarkers(line: string)
    ensures var p := ParseLine(line);
      && (p.status == Done <==> Contains(Trim(line), "++"))
      && (p.status == Partial <==> Contains(Trim(line), "+-") && !Contains(Trim(line), "++"))
      && (p.status == Unmarked <==> !Contains(Trim(line), "+-") && !Contains(Trim(line), "++"))
  {
  }

  /** Type rules in order: a capitalised word is a header, else a leading dash makes a subtask, else a task. */
  lemma TypeRules(line: string)
    ensures var p := ParseLine(line);
      && (p.lineType == Header <==> IsCapitalizedWord(Trim(line)))
      && (p.lineType == Subtask <==> !IsCapitalizedWord(Trim(line)) && StartsWithDash(Trim(line)))
      && (p.lineType == Task <==> !IsCapitalizedWord(Trim(line)) && !StartsWithDash(Trim(line)))
  {
    AcronymIsCapitalizedWord(Trim(line));
  }

  /** Without a time, the display text is the text before the time step. */
  lemma NoTimeKeepsText(line: string)
    ensures ParseLine(line).time.None? <==> MatchTime(BeforeTime(line)).None?
    ensures ParseLine(line).time.None? ==> ParseLine(line).displayText == BeforeTime(line)
  {
  }

  /** When a time is taken, the text before the time step is the token, at least one whitespace and the new
      display text; the time is the token with its first hyphen normalised to `" - "`. */
  lemma TimeExtraction(line: string)
    requires ParseLine(line).time.Some?
    ensures var before, p := BeforeTime(line), ParseLine(line);
      var m := MatchTime(before).value;
      && IsTimeToken(m.token)
      && before == m.token + before[|m.token|..m.length] + p.displayText
      && before[|m.token|..m.length] != [] && AllWhitespace(before[|m.token|..m.length])
      && (p.displayText == [] || !IsWhitespace(p.displayText[0]))
      && p.time == Some(NormalizeDash(m.token))
  {
    var before := BeforeTime(line);
    var m := MatchTime(before).value;
    SliceThree(before, |m.token|, m.length);
  }

  /** A token without a hyphen is the time as written; a range gets `" - "` between its two clocks. */
  lemma TimeNormalForm(t: string)
    requires IsTimeToken(t)
    ensures '-' !in t ==> NormalizeDash(t) == t && IsClock(t)
    ensures '-' in t ==> var q := IndexOf(t, '-');
      NormalizeDash(t) == TrimEnd(t[..q]) + " - " + TrimStart(t[q + 1..])
      && IsClock(TrimEnd(t[..q])) && IsClock(TrimStart(t[q + 1..]))
  {
    NormalizeFirstHyphen(t);
  }

  /** A time token must be followed by whitespace: `10:00` alone matches nothing. */
  lemma TimeNeedsWhitespace()
    ensures MatchTime("10:00") == None
  {
    var s := "10:00";
    assert DigitEnd(s, 0) == 2 by {
      assert DigitEnd(s, 2) == 2;
    }
    assert HourEnd(s, 0) == Some(2);
    assert MinutesAt(s, 2);
    assert ClockEnd(s, 0) == Some(5);
    assert RangeEnd(s) == None;
  }

  /** A run of digits too long for an hour, as in `1234 x`, starts no time. */
  lemma LongDigitRunNoTime()
    ensures MatchTime("1234 x") == None
  {
    var s := "1234 x";
    assert DigitEnd(s, 0) == 4 by {
      assert DigitEnd(s, 4) == 4;
    }
    assert HourEnd(s, 0) == None;
  }

  /** `"10-11"` is normalised to `"10 - 11"`. */
  lemma RangeNormalized()
    ensures NormalizeDash("10-11") == "10 - 11"
  {
    var s := "10-11";
    assert SpaceEnd(s, 0) == 0 && SpaceEnd(s, 1) == 1 && SpaceEnd(s, 2) == 2 && SpaceEnd(s, 3) == 3;
    assert NormalizeFrom(s, 2) == " - 11";
  }

  // ---------------------------------------------------------------------------
  // The time and marker steps do take what is there

  /** A run of digits from `i` that stops at `j` is what the digit scan finds. */
  lemma {:induction false} DigitEndAt(s: string, i: nat, j: nat)
    requires i <= j <= |s|
    requires forall k :: i <= k < j ==> IsDigit(s[k])
    requires j == |s| || !IsDigit(s[j])
    ensures DigitEnd(s, i) == j
    decreases j - i
  {
    if i < j {
      DigitEndAt(s, i + 1, j);
    }
  }

  /** A clock at `i` followed by whitespace or a hyphen is what the clock scan takes. */
  lemma ClockEndAt(s: string, i: nat, x: string)
    requires IsClock(x) && i + |x| < |s| && s[i..i + |x|] == x
    requires IsWhitespace(s[i + |x|]) || s[i + |x|] == '-'
    ensures ClockEnd(s, i) == Some(i + |x|)
  {
    var e := i + |x|;
    forall k | 0 <= k < |x| ensures s[i + k] == x[k] {
      assert s[i..e][k] == s[i + k];
    }
    if |x| <= 2 {
      DigitEndAt(s, i, e);
      assert !MinutesAt(s, e);
    } else {
      DigitEndAt(s, i, e - 3);
      assert MinutesAt(s, e - 3);
    }
  }

  /** Positions `0..n` hold a clock and whitespace, and no hyphen follows: the time is the clock. */
  lemma MatchClockAt(s: string, t: string, n: nat)
    requires IsClock(t) && |t| < n <= |s| && s[..|t|] == t
    requires forall k :: |t| <= k < n ==> IsWhitespace(s[k])
    requires n == |s| || (!IsWhitespace(s[n]) && s[n] != '-')
    ensures MatchTime(s) == Some(TimeMatch(t, n))
  {
    assert s[0..|t|] == s[..|t|];
    ClockEndAt(s, 0, t);
    SpaceEndAt(s, |t|, n);
    assert RangeEnd(s) == None;
    forall k | 0 <= k < |t| ensures s[k] == t[k] {
    }
    if |t| <= 2 {
      DigitEndAt(s, 0, |t|);
      assert ColonEnd(s) == None;
      assert HourEnd(s, 0) == Some(|t|);
    } else {
      DigitEndAt(s, 0, |t| - 3);
      assert ColonEnd(s) == Some(|t|);
    }
  }

  /** Two clocks around a hyphen, padded with whitespace and followed by whitespace, are what the range scan takes. */
  lemma RangeEndAt(s: string, x: string, b: nat, c: nat, y: string)
    requires IsClock(x) && IsClock(y)
    requires |x| <= b < c && c + |y| < |s|
    requires s[..|x|] == x && s[b] == '-' && s[c..c + |y|] == y && IsWhitespace(s[c + |y|])
    requires forall k :: |x| <= k < b ==> IsWhitespace(s[k])
    requires forall k :: b + 1 <= k < c ==> IsWhitespace(s[k])
    ensures RangeEnd(s) == Some(c + |y|)
  {
    ClockHasNoDashOrSpace(y);
    assert s[c] == s[c..c + |y|][0];
    assert s[0..|x|] == s[..|x|];
    ClockEndAt(s, 0, x);
    SpaceEndAt(s, |x|, b);
    SpaceEndAt(s, b + 1, c);
    ClockEndAt(s, c, y);
    RangeEndFrom(s, |x|, b, c, c + |y|);
  }

  /** The range scan, step by step. */
  lemma RangeEndFrom(s: string, a: nat, b: nat, c: nat, e: nat)
    requires ClockEnd(s, 0) == Some(a) && a <= |s| && SpaceEnd(s, a) == b && b < |s| && s[b] == '-'
    requires SpaceEnd(s, b + 1) == c && ClockEnd(s, c) == Some(e)
    ensures RangeEnd(s) == Some(e)
  {
  }

  /** Positions `0..n` hold two clocks around a hyphen, padded with whitespace, then whitespace: the time is the range. */
  lemma MatchRangeAt(s: string, x: string, b: nat, c: nat, y: string, n: nat)
    requires IsClock(x) && IsClock(y)
    requires |x| <= b < c && c + |y| < n <= |s|
    requires s[..|x|] == x && s[b] == '-' && s[c..c + |y|] == y
    requires forall k :: |x| <= k < b ==> IsWhitespace(s[k])
    requires forall k :: b + 1 <= k < c ==> IsWhitespace(s[k])
    requires forall k :: c + |y| <= k < n ==> IsWhitespace(s[k])
    requires n == |s| || !IsWhitespace(s[n])
    ensures MatchTime(s) == Some(TimeMatch(s[..c + |y|], n))
  {
    var e := c + |y|;
    RangeEndAt(s, x, b, c, y);
    MatchAfterRange(s, e, n);
  }

  /** When the range scan ends at `e` and whitespace runs from `e` to `n`, the range is the match. */
  lemma MatchAfterRange(s: string, e: nat, n: nat)
    requires RangeEnd(s) == Some(e) && e < n <= |s|
    requires forall k :: e <= k < n ==> IsWhitespace(s[k])
    requires n == |s| || !IsWhitespace(s[n])
    ensures MatchTime(s) == Some(TimeMatch(s[..e], n))
  {
    SpaceEndAt(s, e, n);
    assert FollowedByWhitespace(s, Some(e)) == Some(TimeMatch(s[..e], n));
  }

  /** The pieces of a range token: a clock, whitespace, the first hyphen, whitespace and a clock. */
  lemma RangeTokenParts(t: string) returns (p: nat, q: nat, c: nat)
    requires IsTimeToken(t) && '-' in t
    ensures p <= q < c < |t| && t[q] == '-'
    ensures IsClock(t[..p]) && IsClock(t[c..])
    ensures forall k :: p <= k < q ==> IsWhitespace(t[k])
    ensures forall k :: q + 1 <= k < c ==> IsWhitespace(t[k])
  {
    q := IndexOf(t, '-');
    assert IsClock(TrimEnd(t[..q])) && IsClock(TrimStart(t[q + 1..]));
    p := ClockBeforeHyphen(t, q);
    c := ClockAfterHyphen(t, q);
  }

  /** The clock before position `q`, without the whitespace in front of `q`. */
  lemma ClockBeforeHyphen(t: string, q: nat) returns (p: nat)
    requires q <= |t| && IsClock(TrimEnd(t[..q]))
    ensures p <= q && IsClock(t[..p])
    ensures forall k :: p <= k < q ==> IsWhitespace(t[k])
  {
    p := SpaceStart(t, 0, q);
    TrimEndPrefix(t, q);
  }

  /** The clock after position `q`, without the whitespace behind `q`. */
  lemma ClockAfterHyphen(t: string, q: nat) returns (c: nat)
    requires q < |t| && IsClock(TrimStart(t[q + 1..]))
    ensures q < c < |t| && IsClock(t[c..])
    ensures forall k :: q + 1 <= k < c ==> IsWhitespace(t[k])
  {
    c := SpaceEnd(t, q + 1);
    TrimStartSuffix(t, q + 1);
  }

  /** The slices of a prefix are the slices of the whole. */
  lemma PrefixSlices(s: string, t: string, i: nat, j: nat)
    requires |t| <= |s| && s[..|t|] == t && i <= j <= |t|
    ensures s[i..j] == t[i..j]
    ensures forall k :: 0 <= k < |t| ==> s[k] == t[k]
  {
    forall k | 0 <= k < |t| ensures s[k] == t[k] {
      assert s[..|t|][k] == s[k];
    }
  }

  /** Positions `0..n` hold a range token and whitespace: the token is the time. */
  lemma MatchRangeTokenAt(s: string, t: string, n: nat)
    requires IsTimeToken(t) && '-' in t && |t| < n <= |s| && s[..|t|] == t
    requires forall k :: |t| <= k < n ==> IsWhitespace(s[k])
    requires n == |s| || !IsWhitespace(s[n])
    ensures MatchTime(s) == Some(TimeMatch(t, n))
  {
    var p, q, c := RangeTokenParts(t);
    PrefixSlices(s, t, 0, p);
    PrefixSlices(s, t, c, |t|);
    assert t[c..|t|] == t[c..] && s[0..p] == s[..p] && t[0..p] == t[..p];
    var y := t[c..];
    assert c + |y| == |t|;
    MatchRangeAt(s, t[..p], q, c, y, n);
    assert s[..c + |y|] == t;
  }

  /** Positions `0..n` hold a time token and whitespace, and what follows is no whitespace nor, after a single
      clock, a hyphen: the token is the time. */
  lemma MatchTokenAt(s: string, t: string, n: nat)
    requires IsTimeToken(t) && |t| < n <= |s| && s[..|t|] == t
    requires forall k :: |t| <= k < n ==> IsWhitespace(s[k])
    requires n == |s| || !IsWhitespace(s[n])
    requires '-' !in t ==> n == |s| || s[n] != '-'
    ensures MatchTime(s) == Some(TimeMatch(t, n))
  {
    if '-' in t {
      MatchRangeTokenAt(s, t, n);
    } else {
      MatchClockAt(s, t, n);
    }
  }

  /** Positions in a token, its whitespace and the rest. */
  lemma TokenThenSpace(t: string, w: string, r: string)
    requires w != [] && AllWhitespace(w)
    requires r == [] || !IsWhitespace(r[0])
    requires '-' !in t ==> r == [] || r[0] != '-'
    ensures var s, n := t + w + r, |t| + |w|;
      && |t| < n <= |s| && s[..|t|] == t
      && (forall k :: |t| <= k < n ==> IsWhitespace(s[k]))
      && (n == |s| || !IsWhitespace(s[n]))
      && ('-' !in t ==> n == |s| || s[n] != '-')
  {
    var s, n := t + w + r, |t| + |w|;
    forall k | |t| <= k < n ensures IsWhitespace(s[k]) {
      assert s[k] == w[k - |t|];
    }
    if n < |s| {
      assert s[n] == r[0];
    }
  }

  /** Marker removal: a marker with the whitespace on both sides of it is removed, and the scan goes on after it. */
  lemma StripMarkerRemoves(w1: string, m0: char, m1: char, w2: string, r: string)
    requires AllWhitespace(w1) && AllWhitespace(w2) && !IsWhitespace(m0)
    requires r == [] || !IsWhitespace(r[0])
    ensures StripMarker(w1 + [m0, m1] + w2 + r, m0, m1) == StripMarker(r, m0, m1)
  {
    var s, k := w1 + [m0, m1] + w2 + r, |w1|;
    MarkerPieces(w1, m0, m1, w2, r);
    StripMarkerAt(s, k, k + 2 + |w2|, m0, m1);
  }

  /** Positions in whitespace, a marker, whitespace and the rest. */
  lemma MarkerPieces(w1: string, m0: char, m1: char, w2: string, r: string)
    requires AllWhitespace(w1) && AllWhitespace(w2)
    requires r == [] || !IsWhitespace(r[0])
    ensures var s, k, e := w1 + [m0, m1] + w2 + r, |w1|, |w1| + 2 + |w2|;
      && e <= |s| && s[k] == m0 && s[k + 1] == m1 && s[e..] == r
      && (forall j :: 0 <= j < k ==> IsWhitespace(s[j]))
      && (forall j :: k + 2 <= j < e ==> IsWhitespace(s[j]))
      && (e == |s| || !IsWhitespace(s[e]))
  {
    var s, k, e := w1 + [m0, m1] + w2 + r, |w1|, |w1| + 2 + |w2|;
    forall j | 0 <= j < k ensures IsWhitespace(s[j]) {
      assert s[j] == w1[j];
    }
    forall j | k + 2 <= j < e ensures IsWhitespace(s[j]) {
      assert s[j] == w2[j - k - 2];
    }
    if e < |s| {
      assert s[e] == r[0];
    }
    assert s[e..] == r;
  }

  /** A marker at `k`, with whitespace before it from the start and after it up to `e`, is removed. */
  lemma StripMarkerAt(s: string, k: nat, e: nat, m0: char, m1: char)
    requires k + 2 <= e <= |s| && s[k] == m0 && s[k + 1] == m1 && !IsWhitespace(m0)
    requires forall j :: 0 <= j < k ==> IsWhitespace(s[j])
    requires forall j :: k + 2 <= j < e ==> IsWhitespace(s[j])
    requires e == |s| || !IsWhitespace(s[e])
    ensures StripMarker(s, m0, m1) == StripMarker(s[e..], m0, m1)
  {
    SpaceEndAt(s, 0, k);
    SpaceEndAt(s, k + 2, e);
    assert MarkerAt(s, m0, m1);
  }

  /** The time step on a whole line: a leading time token and its whitespace leave the display text. */
  lemma TimeTaken(line: string, t: string, w: string, r: string)
    requires BeforeTime(line) == t + w + r
    requires IsTimeToken(t) && w != [] && AllWhitespace(w)
    requires r == [] || !IsWhitespace(r[0])
    requires '-' !in t ==> r == [] || r[0] != '-'
    ensures ParseLine(line).time == Some(NormalizeDash(t)) && ParseLine(line).displayText == r
  {
    TokenThenSpace(t, w, r);
    MatchTokenAt(t + w + r, t, |t| + |w|);
    assert (t + w + r)[|t| + |w|..] == r;
  }

  /** A trimmed line without `+` is its own text before the time step when it is no subtask. */
  lemma PlainBeforeTime(line: string)
    requires IsTrimmed(line) && '+' !in line && !StartsWithDash(line)
    ensures BeforeTime(line) == line && StatusOf(line) == Unmarked
  {
    TrimOfTrimmed(line);
    NoPlusNoMarker(line);
  }

  /** Without a `+`, neither marker occurs. */
  lemma NoPlusNoMarker(s: string)
    requires '+' !in s
    ensures !Contains(s, "++") && !Contains(s, "+-")
  {
    forall i | 0 <= i <= |s| - 2 ensures !OccursAt(s, "++", i) && !OccursAt(s, "+-", i) {
      assert s[i..i + 2][0] == s[i];
      assert s[i] in s;
    }
  }

  /** A trimmed line without `+` that starts with a digit is an unmarked task whose time step runs on the whole line. */
  lemma DigitLine(line: string)
    requires IsTrimmed(line) && '+' !in line && line != [] && IsDigit(line[0])
    ensures ParseLine(line) == match MatchTime(line)
      case None => ParsedLine(line, line, Task, Unmarked, None)
      case Some(tm) => ParsedLine(line, line[tm.length..], Task, Unmarked, Some(NormalizeDash(tm.token)))
  {
    PlainBeforeTime(line);
    TrimOfTrimmed(line);
    assert TypeOf(line) == Task;
  }

  /** A trimmed line without `+` on which the time expression matches: an unmarked task with the token,
      normalised, as its time and the text after the match as its display text. */
  lemma TimedLineAt(line: string, m: TimeMatch)
    requires IsTrimmed(line) && '+' !in line && MatchTime(line) == Some(m)
    ensures ParseLine(line) == ParsedLine(line, line[m.length..], Task, Unmarked, Some(NormalizeDash(m.token)))
  {
    DigitLine(line);
  }

  /** A token, whitespace and a trimmed rest, none of them with a `+`, make a trimmed line without `+`. */
  lemma TimedPieces(t: string, w: string, r: string)
    requires t != [] && !IsWhitespace(t[0]) && '+' !in t
    requires AllWhitespace(w) && r != [] && IsTrimmed(r) && '+' !in r
    ensures IsTrimmed(t + w + r) && '+' !in t + w + r && (t + w + r)[|t| + |w|..] == r
  {
    var line := t + w + r;
    assert line[|t| + |w|..] == r;
    assert line[0] == t[0] && line[|line| - 1] == r[|r| - 1];
    assert '+' !in w by {
      forall k | 0 <= k < |w| ensures w[k] != '+' {
        assert IsWhitespace(w[k]);
      }
    }
  }

  /** A line of a time token, whitespace and a trimmed rest, none of them with a `+`: an unmarked task with that
      time, normalised, and the rest as its display text. */
  lemma TimedLine(t: string, w: string, r: string)
    requires IsTimeToken(t) && w != [] && AllWhitespace(w)
    requires r != [] && IsTrimmed(r)
    requires '-' !in t ==> r[0] != '-'
    requires '+' !in t && '+' !in r
    ensures ParseLine(t + w + r) == ParsedLine(t + w + r, r, Task, Unmarked, Some(NormalizeDash(t)))
  {
    TokenThenSpace(t, w, r);
    TimeTokenHead(t);
    TimedPieces(t, w, r);
    TimedLineFinds(t + w + r, t, |t| + |w|);
  }

  /** A trimmed line without `+` whose positions `0..n` hold a time token and whitespace, followed by no
      whitespace nor, after a single clock, a hyphen: the token is its time and the text from `n` on its display text. */
  lemma TimedLineFinds(line: string, t: string, n: nat)
    requires IsTrimmed(line) && '+' !in line
    requires IsTimeToken(t) && |t| < n <= |line| && line[..|t|] == t
    requires forall k :: |t| <= k < n ==> IsWhitespace(line[k])
    requires n == |line| || !IsWhitespace(line[n])
    requires '-' !in t ==> n == |line| || line[n] != '-'
    ensures ParseLine(line) == ParsedLine(line, line[n..], Task, Unmarked, Some(NormalizeDash(t)))
  {
    MatchTokenAt(line, t, n);
    TimedLineAt(line, TimeMatch(t, n));
  }

  /** A time token starts with a digit. */
  lemma TimeTokenHead(t: string)
    requires IsTimeToken(t)
    ensures t != [] && IsDigit(t[0])
  {
    if '-' in t {
      var p, q, c := RangeTokenParts(t);
      assert t[0] == t[..p][0];
    }
  }

  /** A line of `++`, whitespace and a trimmed rest without `+` or a leading digit: a done task showing the rest. */
  lemma DoneLine(w: string, r: string)
    requires AllWhitespace(w) && r != [] && IsTrimmed(r) && '+' !in r && !IsDigit(r[0])
    ensures ParseLine("++" + w + r) == ParsedLine("++" + w + r, r, Task, Done, None)
  {
    var line := "++" + w + r;
    DoneMarkerStripped(w, r);
    assert TypeOf(line) == Task by {
      assert !IsCapital(line[0]) && !IsDash(line[0]);
    }
    assert BeforeTime(line) == r;
  }

  /** `++`, whitespace and a trimmed rest without `+`: trimmed, done, and only the rest is left after marker removal. */
  lemma DoneMarkerStripped(w: string, r: string)
    requires AllWhitespace(w) && r != [] && IsTrimmed(r) && '+' !in r
    ensures var line := "++" + w + r;
      Trim(line) == line && StatusOf(line) == Done && AfterStatus(line) == r
  {
    var line := [] + ['+', '+'] + w + r;
    assert line == "++" + w + r;
    assert line[|line| - 1] == r[|r| - 1];
    TrimOfTrimmed(line);
    assert OccursAt(line, "++", 0);
    StripMarkerRemoves([], '+', '+', w, r);
    NoPlusNoMarker(r);
    StripMarkerAbsent(r, '+', '+');
  }

  /** A line of a clock, whitespace and a trimmed rest without `+` that does not start with a hyphen: an unmarked
      task with the clock as its time. */
  lemma ClockLine(x: string, w: string, r: string)
    requires IsClock(x) && w != [] && AllWhitespace(w)
    requires r != [] && IsTrimmed(r) && r[0] != '-' && '+' !in r
    ensures ParseLine(x + w + r) == ParsedLine(x + w + r, r, Task, Unmarked, Some(x))
  {
    ClockHasNoDashOrSpace(x);
    ClockIsTimeToken(x);
    NormalizeFirstHyphen(x);
    assert '+' !in x by {
      forall k | 0 <= k < |x| ensures x[k] != '+' {
        assert k == |x| - 3 || IsDigit(x[k]);
      }
    }
    TimedLine(x, w, r);
  }

  /** A line of a range of two clocks, whitespace and a trimmed rest without `+`: an unmarked task whose time
      is the two clocks around `" - "`. */
  lemma RangeLine(x: string, w1: string, w2: string, y: string, w: string, r: string)
    requires IsClock(x) && IsClock(y) && AllWhitespace(w1) && AllWhitespace(w2)
    requires w != [] && AllWhitespace(w) && r != [] && IsTrimmed(r) && '+' !in r
    ensures var line := x + w1 + "-" + w2 + y + w + r;
      ParseLine(line) == ParsedLine(line, r, Task, Unmarked, Some(x + " - " + y))
  {
    var t := x + w1 + "-" + w2 + y;
    RangeTime(t, x, w1, w2, y);
    NoPlusInRange(t, x, w1, w2, y);
    TimedLine(t, w, r);
  }

  /** A padded range is a time token normalised to its two clocks around `" - "`. */
  lemma RangeTime(t: string, x: string, w1: string, w2: string, y: string)
    requires IsClock(x) && IsClock(y) && AllWhitespace(w1) && AllWhitespace(w2)
    requires t == x + w1 + "-" + w2 + y
    ensures IsTimeToken(t) && '-' in t && NormalizeDash(t) == x + " - " + y
  {
    var b := |x + w1|;
    PaddedRangeIsTimeToken(t, x, w1, w2, y);
    assert t[b] == '-' && t[b] in t;
    NormalizeAtFirstHyphen(t, b);
  }

  lemma NoPlusInRange(t: string, x: string, w1: string, w2: string, y: string)
    requires IsClock(x) && IsClock(y) && AllWhitespace(w1) && AllWhitespace(w2)
    requires t == x + w1 + "-" + w2 + y
    ensures '+' !in t
  {
    forall k | 0 <= k < |t| ensures t[k] != '+' {
      if k < |x| {
        assert t[k] == x[k];
      } else if k < |x + w1| {
        assert t[k] == w1[k - |x|];
      } else if k == |x + w1| {
      } else if k < |x + w1| + 1 + |w2| {
        assert t[k] == w2[k - |x + w1| - 1];
      } else {
        assert t[k] == y[k - |x + w1| - 1 - |w2|];
      }
    }
  }

  /** `parse("10:00 Standup")`: the time is `10:00` and the display text `Standup`. */
  lemma ClockLineExample()
    ensures var line := "10:00" + " " + "Standup";
      ParseLine(line) == ParsedLine(line, "Standup", Task, Unmarked, Some("10:00"))
  {
    ClockLine("10:00", " ", "Standup");
  }

  /** `parse("10 - 11:30 Deep work")`: the time is `10 - 11:30` and the display text `Deep work`. */
  lemma RangeLineExample()
    ensures var line := "10" + " " + "-" + " " + "11:30" + " " + "Deep work";
      ParseLine(line) == ParsedLine(line, "Deep work", Task, Unmarked, Some("10" + " - " + "11:30"))
  {
    assert IsClock("11:30");
    RangeLine("10", " ", " ", "11:30", " ", "Deep work");
  }

  /** `parse("++ Buy milk")`: done, with the marker and its space removed from the display text. */
  lemma DoneLineExample()
    ensures ParseLine("++ Buy milk") == ParsedLine("++ Buy milk", "Buy milk", Task, Done, None)
  {
    assert "++ Buy milk" == "++" + " " + "Buy milk";
    DoneLine(" ", "Buy milk");
  }

  /** `parseContent`: one record per `'\n'`-separated segment, in order; the records' texts rebuild the input. */
  function ParseContent(text: string): (lines: seq<ParsedLine>)
    ensures |lines| == |Split(text, '\n')|
    ensures forall i :: 0 <= i < |lines| ==> lines[i] == ParseLine(Split(text, '\n')[i])
    ensures Join(Texts(lines), '\n') == text
  {
    var lines := ParseLines(Split(text, '\n'));
    JoinSplit(text, '\n');
    TextsOfParsed(Split(text, '\n'));
    lines
  }

  /** The `map` over the segments. */
  function ParseLines(parts: seq<string>): (lines: seq<ParsedLine>)
    ensures |lines| == |parts|
    ensures forall i :: 0 <= i < |parts| ==> lines[i] == ParseLine(parts[i])
  {
    if parts == [] then [] else [ParseLine(parts[0])] + ParseLines(parts[1..])
  }

  /** Parsing keeps every segment as its record's text. */
  lemma TextsOfParsed(parts: seq<string>)
    ensures Texts(ParseLines(parts)) == parts
  {
    var ts := Texts(ParseLines(parts));
    assert |ts| == |parts|;
    forall i | 0 <= i < |parts| ensures ts[i] == parts[i] {
      assert ts[i] == ParseLines(parts)[i].text;
    }
  }

  lemma {:induction false} ParseLinesAppend(xs: seq<string>, ys: seq<string>)
    ensures ParseLines(xs + ys) == ParseLines(xs) + ParseLines(ys)
  {
    if xs == [] {
      assert xs + ys == ys;
    } else {
      ConsAppend(xs, ys);
      ParseLinesAppend(xs[1..], ys);
    }
  }

  /** No record's text contains a line break. */
  lemma ParsedTextsAreLines(text: string)
    ensures forall l <- ParseContent(text) :: '\n' !in l.text
  {
    SplitPiecesSeparatorFree(text, '\n');
  }

  function Texts(lines: seq<ParsedLine>): (ts: seq<string>)
    ensures |ts| == |lines| && forall i :: 0 <= i < |lines| ==> ts[i] == lines[i].text
  {
    if lines == [] then [] else [lines[0].text] + Texts(lines[1..])
  }

  // ---------------------------------------------------------------------------
  // Properties of single lines

  /** A capitalised single word is a header and can carry no status marker, since `+` is not a letter. */
  lemma HeaderHasNoStatus(line: string)
    requires IsCapitalizedWord(Trim(line))
    ensures ParseLine(line).lineType == Header
    ensures ParseLine(line).status == Unmarked
  {
    var t := Trim(line);
    NoPlusInWord(t, "++");
    NoPlusInWord(t, "+-");
  }

  lemma NoPlusInWord(t: string, marker: string)
    requires IsCapitalizedWord(t) && |marker| == 2 && marker[0] == '+'
    ensures !Contains(t, marker)
  {
    forall i | 0 <= i <= |t| - 2 ensures !OccursAt(t, marker, i) {
      assert t[i..i + 2][0] == t[i];
    }
  }

  /** A subtask loses one leading dash and the whitespace after it; the dash survives marker removal. */
  lemma SubtaskDisplay(line: string)
    requires ParseLine(line).lineType == Subtask
    ensures var marked := AfterStatus(Trim(line));
      StartsWithDash(marked) && BeforeTime(line) == TrimStart(marked[1..])
  {
    var t := Trim(line);
    assert StartsWithDash(t);
    if StatusOf(t) == Done { StripMarkerKeepsHead(t, '+', '+'); }
    if StatusOf(t) == Partial { StripMarkerKeepsHead(t, '+', '-'); }
  }

  /** Blank or whitespace-only lines are unmarked tasks with nothing to show. */
  lemma BlankLineIsTask(line: string)
    requires AllWhitespace(line)
    ensures ParseLine(line).lineType == Task && ParseLine(line).status == Unmarked
    ensures ParseLine(line).displayText == [] && ParseLine(line).time == None
  {
    TrimOfPadded(line, [], []);
    assert line + [] + [] == line;
  }

  /** Unmarked, non-subtask lines without a time show their trimmed text. */
  lemma PlainLineShowsTrimmed(line: string)
    requires ParseLine(line).status == Unmarked && ParseLine(line).lineType != Subtask
    requires ParseLine(line).time == None
    ensures ParseLine(line).displayText == Trim(line)
  {
  }

  // ---------------------------------------------------------------------------
  // Statistics

  function CountTasks(lines: seq<ParsedLine>): nat
  {
    if lines == [] then 0 else (if lines[0].lineType == Task then 1 else 0) + CountTasks(lines[1..])
  }

  function CountTasksWith(lines: seq<ParsedLine>, s: Status): nat
  {
    if lines == [] then 0
    else (if lines[0].lineType == Task && lines[0].status == s then 1 else 0) + CountTasksWith(lines[1..], s)
  }

  /** `countStats`: tasks only, done and partial among them. */
  function CountStats(text: string): (st: Stats)
    ensures st.done + st.partial <= st.total <= |Split(text, '\n')|
  {
    var lines := ParseContent(text);
    CountBounds(lines);
    Stats(CountTasks(lines), CountTasksWith(lines, Done), CountTasksWith(lines, Partial))
  }

  /** 1 for a line that is counted, 0 for one that is not. */
  function Tally(counted: bool): nat
  {
    if counted then 1 else 0
  }

  /** A single line counts once in the total when it is a task, and once more as done or partial by its status;
      headers and subtasks are not counted. Together with `StatsConcat` this fixes the counts of every text. */
  lemma LineStats(line: string)
    requires '\n' !in line
    ensures var p := ParseLine(line); var task := p.lineType == Task;
      CountStats(line) == Stats(Tally(task), Tally(task && p.status == Done), Tally(task && p.status == Partial))
  {
    LineTally(line);
  }

  /** `LineStats` stated on the type and status steps of the trimmed line. */
  lemma LineTally(line: string)
    requires '\n' !in line
    ensures var t := Trim(line); var task := TypeOf(t) == Task;
      CountStats(line) == Stats(Tally(task), Tally(task && StatusOf(t) == Done), Tally(task && StatusOf(t) == Partial))
  {
    SplitWithoutSeparator(line, '\n');
    var lines := ParseContent(line);
    assert lines == [ParseLine(line)];
    assert lines[1..] == [];
  }

  /** `countStats("++ A\n+- B\nC")`: one done and one partial task; `C` is a one-letter header and is not counted. */
  lemma CountStatsExample()
    ensures CountStats("++ A\n+- B\nC") == Stats(2, 1, 1)
  {
    assert "++ A\n+- B\nC" == ['+', '+', ' ', 'A'] + "\n" + (['+', '-', ' ', 'B'] + "\n" + ['C']);
    ThreeLineStats('A', 'B', 'C');
  }

  /** A done line, a partial line and a one-letter header: two tasks, one done and one partial. */
  lemma ThreeLineStats(x: char, y: char, z: char)
    requires !IsWhitespace(x) && !IsWhitespace(y) && x != '\n' && y != '\n' && y != '+' && IsCapital(z)
    ensures CountStats(['+', '+', ' ', x] + "\n" + (['+', '-', ' ', y] + "\n" + [z])) == Stats(2, 1, 1)
  {
    DoneTask(x);
    PartialTask(y);
    OneLetterHeader(z);
    StatsOfThree(['+', '+', ' ', x], ['+', '-', ' ', y], [z]);
  }

  /** The counts of three lines joined by line breaks are the sums of their counts. */
  lemma StatsOfThree(a: string, b: string, c: string)
    ensures var x, y, z, all := CountStats(a), CountStats(b), CountStats(c), CountStats(a + "\n" + (b + "\n" + c));
      all == Stats(x.total + y.total + z.total, x.done + y.done + z.done, x.partial + y.partial + z.partial)
  {
    StatsConcat(a, b + "\n" + c);
    StatsConcat(b, c);
  }

  lemma DoneTask(x: char)
    requires !IsWhitespace(x) && x != '\n'
    ensures CountStats(['+', '+', ' ', x]) == Stats(1, 1, 0)
  {
    LineTally(['+', '+', ' ', x]);
    DoneSteps(x);
  }

  lemma DoneSteps(x: char)
    requires !IsWhitespace(x)
    ensures var a := ['+', '+', ' ', x]; TypeOf(Trim(a)) == Task && StatusOf(Trim(a)) == Done
  {
    var a := ['+', '+', ' ', x];
    TrimOfTrimmed(a);
    assert OccursAt(a, "++", 0);
    assert !IsCapital(a[0]) && !IsDash(a[0]);
  }

  lemma PartialTask(y: char)
    requires !IsWhitespace(y) && y != '+' && y != '\n'
    ensures CountStats(['+', '-', ' ', y]) == Stats(1, 0, 1)
  {
    LineTally(['+', '-', ' ', y]);
    PartialSteps(y);
  }

  lemma PartialSteps(y: char)
    requires !IsWhitespace(y) && y != '+'
    ensures var b := ['+', '-', ' ', y]; TypeOf(Trim(b)) == Task && StatusOf(Trim(b)) == Partial
  {
    var b := ['+', '-', ' ', y];
    TrimOfTrimmed(b);
    assert OccursAt(b, "+-", 0);
    forall i | 0 <= i <= |b| - 2 ensures !OccursAt(b, "++", i) {
      assert b[i..i + 2][1] == b[i + 1];
    }
    assert !IsCapital(b[0]) && !IsDash(b[0]);
  }

  lemma OneLetterHeader(z: char)
    requires IsCapital(z)
    ensures CountStats([z]) == Stats(0, 0, 0)
  {
    LineTally([z]);
    HeaderSteps(z);
  }

  lemma HeaderSteps(z: char)
    requires IsCapital(z)
    ensures TypeOf(Trim([z])) == Header
  {
    TrimOfTrimmed([z]);
    assert IsCapitalizedWord([z]);
  }

  lemma {:induction false} CountBounds(lines: seq<ParsedLine>)
    ensures CountTasksWith(lines, Done) + CountTasksWith(lines, Partial) <= CountTasks(lines) <= |lines|
  {
    if lines != [] { CountBounds(lines[1..]); }
  }

  lemma {:induction false} CountsAppend(a: seq<ParsedLine>, b: seq<ParsedLine>, s: Status)
    ensures CountTasks(a + b) == CountTasks(a) + CountTasks(b)
    ensures CountTasksWith(a + b, s) == CountTasksWith(a, s) + CountTasksWith(b, s)
  {
    if a == [] {
      assert a + b == b;
    } else {
      ConsAppend(a, b);
      CountsAppend(a[1..], b, s);
    }
  }

  /** Parsing distributes over a line break. */
  lemma ParseContentConcat(a: string, b: string)
    ensures ParseContent(a + "\n" + b) == ParseContent(a) + ParseContent(b)
  {
    SplitConcat(a, b, '\n');
    ParseLinesAppend(Split(a, '\n'), Split(b, '\n'));
  }

  /** Statistics add up over the lines of a text. */
  lemma StatsConcat(a: string, b: string)
    ensures var x, y, z := CountStats(a), CountStats(b), CountStats(a + "\n" + b);
      z.total == x.total + y.total && z.done == x.done + y.done && z.partial == x.partial + y.partial
  {
    ParseContentConcat(a, b);
    CountsAppend(ParseContent(a), ParseContent(b), Done);
    CountsAppend(ParseContent(a), ParseContent(b), Partial);
  }
}
