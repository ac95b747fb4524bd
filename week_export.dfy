/**
 * The week text codec: a week's focus and seven days written as one plain-text
 * block (the "Apple Notes" format) and read back by a line-by-line state machine.
 * The dates in the title come from a date formatter and are parameters here.
 */
module WeekExport {
  import opened Strings
  import opened Wrappers

  datatype Locale = Ru | En

  /** One element of a week's `days`, and one day of an import: a day index and its text. */
  datatype DayEntry = DayEntry(dayIndex: int, content: string)

  /** The part of a stored week the export reads. */
  datatype Week = Week(focusText: string, days: seq<DayEntry>)

  /** The patch an import yields. */
  datatype Imported = Imported(focusText: string, days: seq<DayEntry>)

  const DayNamesRu: seq<string> := ["Пн", "Вт", "Ср", "Чт", "Пт", "Сб", "Вс"]
  const DayNamesEn: seq<string> := ["Mon", "Tue", "Wed", "Thu", "Fri", "Sat", "Sun"]

  function DayNames(locale: Locale): seq<string>
  {
    if locale == Ru then DayNamesRu else DayNamesEn
  }

  /** The title line, around the two formatted dates of the week. */
  function Title(locale: Locale, startFormatted: string, endFormatted: string): string
  {
    (if locale == Ru then "План на неделю " else "Week plan ") + startFormatted + " - " + endFormatted
  }

  function FocusHeading(locale: Locale): string
  {
    if locale == Ru then "🎯 Фокус недели:" else "🎯 Week Focus:"
  }

  // ---------------------------------------------------------------------------
  // Export

  /** `week.days.find(d => d.day_index === index)?.content || ''`. */
  function DayContent(days: seq<DayEntry>, index: int): (c: string)
    ensures (forall k :: 0 <= k < |days| ==> days[k].dayIndex != index) ==> c == []
    ensures forall k :: (0 <= k < |days| && days[k].dayIndex == index
      && forall j :: 0 <= j < k ==> days[j].dayIndex != index) ==> c == days[k].content
  {
    if days == [] then []
    else if days[0].dayIndex == index then days[0].content
    else DayContent(days[1..], index)
  }

  /** What one day contributes: its name, its trimmed content or a `* ` placeholder, and a blank line. */
  function DayBlock(locale: Locale, days: seq<DayEntry>, index: nat): string
    requires index < 7
  {
    var content := DayContent(days, index);
    (DayNames(locale)[index] + "\n") + (if Trim(content) != [] then Trim(content) + "\n" else "* \n") + "\n"
  }

  /** The blocks of the days `0 .. n-1`, in order. */
  function DayBlocks(locale: Locale, days: seq<DayEntry>, n: nat): string
    requires n <= 7
  {
    if n == 0 then [] else DayBlocks(locale, days, n - 1) + DayBlock(locale, days, n - 1)
  }

  /** The focus section, present only when the trimmed focus is not empty. */
  function FocusBlock(locale: Locale, focusText: string): string
  {
    if Trim(focusText) != [] then (FocusHeading(locale) + "\n") + (Trim(focusText) + "\n\n") else []
  }

  /** The text `exportWeekToText` returns. */
  function ExportText(week: Week, locale: Locale, startFormatted: string, endFormatted: string): string
  {
    Trim(Title(locale, startFormatted, endFormatted) + "\n\n" + FocusBlock(locale, week.focusText)
      + DayBlocks(locale, week.days, 7))
  }

  /** `exportWeekToText`: the title, the focus block, then each day appended in turn; the whole is trimmed. */
  method ExportWeekToText(week: Week, locale: Locale, startFormatted: string, endFormatted: string)
    returns (out: string)
    ensures out == ExportText(week, locale, startFormatted, endFormatted)
    ensures IsTrimmed(out)
  {
    var dayNames := DayNames(locale);
    var title := Title(locale, startFormatted, endFormatted);
    var result := title + "\n\n";
    var focus := Trim(week.focusText);
    if focus != [] {
      result := result + (FocusHeading(locale) + "\n");
      result := result + (focus + "\n\n");
      Assoc(title + "\n\n", FocusHeading(locale) + "\n", focus + "\n\n");
    }
    ghost var head := result;
    assert head == title + "\n\n" + FocusBlock(locale, week.focusText);
    var index := 0;
    while index < 7
      invariant index <= 7
      invariant result == head + DayBlocks(locale, week.days, index)
    {
      var content := DayContent(week.days, index);
      ghost var before := result;
      result := result + (dayNames[index] + "\n");
      ghost var body := if Trim(content) != [] then Trim(content) + "\n" else "* \n";
      if Trim(content) != [] {
        result := result + (Trim(content) + "\n");
      } else {
        result := result + "* \n";
      }
      result := result + "\n";
      Assoc(before, dayNames[index] + "\n", body);
      Assoc(before, dayNames[index] + "\n" + body, "\n");
      Assoc(head, DayBlocks(locale, week.days, index), DayBlock(locale, week.days, index));
      index := index + 1;
    }
    out := Trim(result);
  }

  lemma Assoc(a: string, b: string, c: string)
    ensures (a + b) + c == a + (b + c)
  {
  }

  // ---------------------------------------------------------------------------
  // Day names

  const RuTokens: seq<string> := ["пн", "вт", "ср", "чт", "пт", "сб", "вс"]
  const EnTokens: seq<string> := ["mon", "tue", "wed", "thu", "fri", "sat", "sun"]
  const FullTokens: seq<string> := ["monday", "tuesday", "wednesday", "thursday", "friday", "saturday", "sunday"]

  /** `t` is one of the three spellings of day `i`. */
  predicate IsDayToken(t: string, i: nat)
    requires i < 7
  {
    t == RuTokens[i] || t == EnTokens[i] || t == FullTokens[i]
  }

  /** `parseDayName`: the index of the day the lower-cased, trimmed text names, or -1. */
  function ParseDayName(text: string): (r: int)
    ensures -1 <= r <= 6
    ensures r != -1 ==> IsDayToken(Trim(Lower(text)), r)
  {
    LookupDay(Trim(Lower(text)))
  }

  /** The three `indexOf` lookups in turn: two-letter Russian, three-letter English, full English. */
  function LookupDay(normalized: string): (r: int)
    ensures -1 <= r <= 6
    ensures r != -1 ==> IsDayToken(normalized, r)
  {
    var ru := IndexOf(RuTokens, normalized);
    if ru != -1 then ru
    else
      var en := IndexOf(EnTokens, normalized);
      if en != -1 then en
      else IndexOf(FullTokens, normalized)
  }

  /** The day index is `i` exactly when the normalised text is one of day `i`'s three spellings. */
  lemma ParseDayNameMatches(text: string)
    ensures forall i :: 0 <= i < 7 ==> (ParseDayName(text) == i <==> IsDayToken(Trim(Lower(text)), i))
    ensures ParseDayName(text) == -1 <==> forall i :: 0 <= i < 7 ==> !IsDayToken(Trim(Lower(text)), i)
  {
    var n := Trim(Lower(text));
    assert ParseDayName(text) == LookupDay(n);
    LookupMatches(n);
    if ParseDayName(text) != -1 {
      var r: nat := ParseDayName(text);
      assert IsDayToken(Trim(Lower(text)), r);
    }
  }

  lemma LookupMatches(n: string)
    ensures forall i :: 0 <= i < 7 ==> (LookupDay(n) == i <==> IsDayToken(n, i))
    ensures LookupDay(n) == -1 <==> forall i :: 0 <= i < 7 ==> !IsDayToken(n, i)
  {
    forall i | 0 <= i < 7 ensures LookupDay(n) == i <==> IsDayToken(n, i) {
      if IsDayToken(n, i) { LookupFinds(n, i); }
    }
  }

  lemma LookupFinds(n: string, i: nat)
    requires i < 7 && IsDayToken(n, i)
    ensures LookupDay(n) == i
  {
    TokensDistinct(i);
    TokensApart(i);
    if n == RuTokens[i] {
      FirstAt(RuTokens, n, i);
    } else if n == EnTokens[i] {
      FirstAt(EnTokens, n, i);
    } else {
      FirstAt(FullTokens, n, i);
    }
  }

  /** `indexOf` finds an element at the position where it first occurs. */
  lemma FirstAt<T>(xs: seq<T>, x: T, i: nat)
    requires i < |xs| && xs[i] == x && forall j :: 0 <= j < i ==> xs[j] != xs[i]
    ensures IndexOf(xs, x) == i
  {
  }

  /** Within each list, the seven names are different. */
  lemma TokensDistinct(i: nat)
    requires i < 7
    ensures |RuTokens| == |EnTokens| == |FullTokens| == 7
    ensures forall j :: 0 <= j < i ==> RuTokens[j] != RuTokens[i] && EnTokens[j] != EnTokens[i] && FullTokens[j] != FullTokens[i]
  {
  }

  /** The lists differ in the length of their names, so no name of one list is in an earlier one. */
  lemma TokensApart(i: nat)
    requires i < 7
    ensures EnTokens[i] !in RuTokens && FullTokens[i] !in RuTokens && FullTokens[i] !in EnTokens
  {
  }

  // ---------------------------------------------------------------------------
  // Import

  /** The loop variables of `importWeekFromText`. */
  datatype ImportState = ImportState(
    focusText: string,
    days: seq<DayEntry>,
    currentDayIndex: int,
    currentDayContent: seq<string>,
    inFocusSection: bool,
    focusLines: seq<string>)

  const Init := ImportState([], [], -1, [], false, [])

  predicate IsTitleLine(t: string)
  {
    Contains(t, "План на неделю") || Contains(t, "Week plan")
  }

  predicate IsFocusHeading(t: string)
  {
    StartsWith(t, "🎯") && (Contains(t, "Фокус") || Contains(t, "Focus"))
  }

  /** Ends the focus section, taking the collected lines as the focus. */
  function CloseFocus(st: ImportState): ImportState
  {
    st.(focusText := Trim(Join(st.focusLines, '\n')), inFocusSection := false)
  }

  /** Adds the day being collected, if any, to the imported days. */
  function SaveDay(st: ImportState): ImportState
  {
    if st.currentDayIndex != -1 then
      st.(days := st.days + [DayEntry(st.currentDayIndex, Trim(Join(st.currentDayContent, '\n')))])
    else st
  }

  /** One iteration of the loop, on line number `i`. */
  function Step(st: ImportState, i: nat, line: string): ImportState
  {
    var trimmed := Trim(line);
    if i == 0 && IsTitleLine(trimmed) then st
    else if IsFocusHeading(trimmed) then st.(inFocusSection := true)
    else
      var dayIndex := ParseDayName(trimmed);
      if dayIndex != -1 then
        var st1 := if st.inFocusSection then CloseFocus(st) else st;
        SaveDay(st1).(currentDayIndex := dayIndex, currentDayContent := [])
      else if st.inFocusSection then
        if trimmed == [] && |st.focusLines| > 0 then CloseFocus(st)
        else if trimmed != [] then st.(focusLines := st.focusLines + [line])
        else st
      else if st.currentDayIndex != -1 then st.(currentDayContent := st.currentDayContent + [line])
      else st
  }

  /** The loop body `step` run over `lines` in order, the first line having number `base`. */
  function Fold(step: (ImportState, nat, string) -> ImportState, st: ImportState, lines: seq<string>, base: nat): ImportState
    decreases |lines|
  {
    if lines == [] then st else Fold(step, step(st, base, lines[0]), lines[1..], base + 1)
  }

  /** After the loop: the last day is saved, and an import that found nothing is `null`. */
  function Finish(st: ImportState): Option<Imported>
  {
    var last := SaveDay(st);
    if |last.days| == 0 && last.focusText == [] then None else Some(Imported(last.focusText, last.days))
  }

  /** The value `importWeekFromText` returns. */
  function ImportWeek(text: string): Option<Imported>
  {
    Finish(Fold(Step, Init, Split(text, '\n'), 0))
  }

  /** Running the loop over two stretches of lines one after the other. */
  lemma {:induction false} FoldAppend(step: (ImportState, nat, string) -> ImportState, st: ImportState,
                                      xs: seq<string>, ys: seq<string>, base: nat)
    ensures Fold(step, st, xs + ys, base) == Fold(step, Fold(step, st, xs, base), ys, base + |xs|)
    decreases |xs|
  {
    if xs != [] {
      ConsAppend(xs, ys);
      FoldAppend(step, step(st, base, xs[0]), xs[1..], ys, base + 1);
    } else {
      EmptyAppend(xs, ys);
    }
  }

  lemma EmptyAppend<T>(xs: seq<T>, ys: seq<T>)
    requires xs == []
    ensures xs + ys == ys
  {
  }

  lemma FoldSnoc(step: (ImportState, nat, string) -> ImportState, st: ImportState, xs: seq<string>, x: string, base: nat)
    ensures Fold(step, st, xs + [x], base) == step(Fold(step, st, xs, base), base + |xs|, x)
  {
    FoldAppend(step, st, xs, [x], base);
  }

  /** `importWeekFromText`: the loop over the lines, then the last day and the `null` test. */
  method ImportWeekFromText(text: string) returns (r: Option<Imported>)
    ensures r == ImportWeek(text)
  {
    var st := ImportLines(Split(text, '\n'));
    if st.currentDayIndex != -1 {
      st := st.(days := st.days + [DayEntry(st.currentDayIndex, Trim(Join(st.currentDayContent, '\n')))]);
    }
    if |st.days| == 0 && st.focusText == [] {
      return None;
    }
    return Some(Imported(st.focusText, st.days));
  }

  /** The loop of `importWeekFromText`, over the lines in order. */
  method ImportLines(lines: seq<string>) returns (st: ImportState)
    ensures st == Fold(Step, Init, lines, 0)
  {
    st := Init;
    for i := 0 to |lines|
      invariant st == Fold(Step, Init, lines[..i], 0)
    {
      ghost var before := st;
      st := ImportLine(st, i, lines[i]);
      FoldPrefix(Step, Init, lines, i, before, st);
    }
    assert lines[..|lines|] == lines;
  }

  /** One more line run through the loop extends the prefix the state stands for. */
  lemma {:induction false} FoldPrefix(step: (ImportState, nat, string) -> ImportState, start: ImportState,
                                      lines: seq<string>, i: nat, st: ImportState, next: ImportState)
    requires i < |lines| && st == Fold(step, start, lines[..i], 0) && next == step(st, i, lines[i])
    ensures next == Fold(step, start, lines[..i + 1], 0)
  {
    assert lines[..i + 1] == lines[..i] + [lines[i]];
    FoldSnoc(step, start, lines[..i], lines[i], 0);
  }

  /** One pass of the loop body of `importWeekFromText` over line number `i`; each early `continue`
      of the loop is a `return` here. */
  method ImportLine(st: ImportState, i: nat, line: string) returns (next: ImportState)
    ensures next == Step(st, i, line)
  {
    next := st;
    var trimmed := Trim(line);
    if i == 0 && IsTitleLine(trimmed) {
      return;
    }
    if IsFocusHeading(trimmed) {
      next := next.(inFocusSection := true);
      return;
    }
    var dayIndex := ParseDayName(trimmed);
    if dayIndex != -1 {
      if next.inFocusSection {
        next := next.(focusText := Trim(Join(next.focusLines, '\n')), inFocusSection := false);
      }
      if next.currentDayIndex != -1 {
        next := next.(days := next.days + [DayEntry(next.currentDayIndex, Trim(Join(next.currentDayContent, '\n')))]);
      }
      next := next.(currentDayIndex := dayIndex, currentDayContent := []);
      return;
    }
    if next.inFocusSection {
      if trimmed == [] && |next.focusLines| > 0 {
        next := next.(inFocusSection := false, focusText := Trim(Join(next.focusLines, '\n')));
      } else if trimmed != [] {
        next := next.(focusLines := next.focusLines + [line]);
      }
    } else if next.currentDayIndex != -1 {
      next := next.(currentDayContent := next.currentDayContent + [line]);
    }
  }

  // ---------------------------------------------------------------------------
  // Properties of the import

  /** What every state of the loop satisfies: the day being collected is -1 or a day index, every saved day
      has a day index and trimmed content, and before the first day marker nothing is collected. */
  predicate WellFormed(st: ImportState)
  {
    && -1 <= st.currentDayIndex <= 6
    && (forall d <- st.days :: 0 <= d.dayIndex <= 6 && IsTrimmed(d.content))
    && (st.currentDayIndex == -1 ==> st.days == [] && st.currentDayContent == [])
  }

  /** A line that starts a new day: not the skipped title, not a focus heading, and a day name. */
  predicate IsMarker(i: nat, line: string)
  {
    !(i == 0 && IsTitleLine(Trim(line))) && !IsFocusHeading(Trim(line)) && ParseDayName(Trim(line)) != -1
  }

  lemma StepWellFormed(st: ImportState, i: nat, line: string)
    requires WellFormed(st)
    ensures WellFormed(Step(st, i, line))
  {
    if IsMarker(i, line) {
      var st1 := if st.inFocusSection then CloseFocus(st) else st;
      assert WellFormed(st1);
      SaveDayWellFormed(st1);
    }
  }

  lemma SaveDayWellFormed(st: ImportState)
    requires WellFormed(st)
    ensures forall d <- SaveDay(st).days :: 0 <= d.dayIndex <= 6 && IsTrimmed(d.content)
    ensures st.currentDayIndex != -1 ==> |SaveDay(st).days| == |st.days| + 1
  {
  }

  lemma {:induction false} FoldWellFormed(st: ImportState, lines: seq<string>, base: nat)
    requires WellFormed(st)
    ensures WellFormed(Fold(Step, st, lines, base))
    decreases |lines|
  {
    if lines != [] {
      StepWellFormed(st, base, lines[0]);
      FoldWellFormed(Step(st, base, lines[0]), lines[1..], base + 1);
    }
  }

  /** Every imported day has an index in 0..6 and trimmed content. */
  lemma ImportedDaysWellFormed(text: string)
    ensures ImportWeek(text).Some? ==>
      forall d <- ImportWeek(text).value.days :: 0 <= d.dayIndex <= 6 && IsTrimmed(d.content)
  {
    FoldWellFormed(Init, Split(text, '\n'), 0);
    SaveDayWellFormed(Fold(Step, Init, Split(text, '\n'), 0));
  }

  /** The day indices the day markers among `lines` name, in order. */
  function Markers(lines: seq<string>, base: nat): seq<int>
    decreases |lines|
  {
    if lines == [] then []
    else (if IsMarker(base, lines[0]) then [ParseDayName(Trim(lines[0]))] else []) + Markers(lines[1..], base + 1)
  }

  function Indices(days: seq<DayEntry>): (ix: seq<int>)
    ensures |ix| == |days| && forall k :: 0 <= k < |days| ==> ix[k] == days[k].dayIndex
  {
    if days == [] then [] else [days[0].dayIndex] + Indices(days[1..])
  }

  /** The saved days, then the one being collected. */
  function Opened(st: ImportState): seq<int>
  {
    Indices(st.days) + (if st.currentDayIndex == -1 then [] else [st.currentDayIndex])
  }

  lemma IndicesSnoc(days: seq<DayEntry>, d: DayEntry)
    ensures Indices(days + [d]) == Indices(days) + [d.dayIndex]
  {
    var l, r := Indices(days + [d]), Indices(days) + [d.dayIndex];
    assert |l| == |r|;
    forall k | 0 <= k < |l| ensures l[k] == r[k] {
      if k < |days| { assert (days + [d])[k] == days[k]; }
    }
  }

  /** A day marker opens its day after the ones seen so far; no other line changes the days. */
  lemma StepOpened(st: ImportState, i: nat, line: string)
    ensures Opened(Step(st, i, line))
      == Opened(st) + (if IsMarker(i, line) then [ParseDayName(Trim(line))] else [])
  {
    if IsMarker(i, line) {
      var st1 := if st.inFocusSection then CloseFocus(st) else st;
      MarkerStep(st, i, line);
      SaveDayOpened(st1);
      assert Opened(st1) == Opened(st);
    } else {
      PlainStep(st, i, line);
      assert Opened(st) + [] == Opened(st);
    }
  }

  /** What a day marker does to the state. */
  lemma MarkerStep(st: ImportState, i: nat, line: string)
    requires IsMarker(i, line)
    ensures var st1 := if st.inFocusSection then CloseFocus(st) else st;
      Step(st, i, line) == SaveDay(st1).(currentDayIndex := ParseDayName(Trim(line)), currentDayContent := [])
  {
  }

  /** Any other line leaves the saved days and the open day alone. */
  lemma PlainStep(st: ImportState, i: nat, line: string)
    requires !IsMarker(i, line)
    ensures Step(st, i, line).days == st.days && Step(st, i, line).currentDayIndex == st.currentDayIndex
  {
  }

  lemma {:induction false} FoldOpened(st: ImportState, lines: seq<string>, base: nat)
    ensures Opened(Fold(Step, st, lines, base)) == Opened(st) + Markers(lines, base)
    decreases |lines|
  {
    if lines != [] {
      var m := if IsMarker(base, lines[0]) then [ParseDayName(Trim(lines[0]))] else [];
      StepOpened(st, base, lines[0]);
      FoldOpened(Step(st, base, lines[0]), lines[1..], base + 1);
      AssocSeq(Opened(st), m, Markers(lines[1..], base + 1));
    }
  }

  lemma AssocSeq<T>(a: seq<T>, b: seq<T>, c: seq<T>)
    ensures (a + b) + c == a + (b + c)
  {
  }

  /** Saving the last day turns the opened days into the saved ones. */
  lemma SaveDayOpened(st: ImportState)
    ensures Indices(SaveDay(st).days) == Opened(st)
  {
    if st.currentDayIndex != -1 {
      IndicesSnoc(st.days, DayEntry(st.currentDayIndex, Trim(Join(st.currentDayContent, '\n'))));
    } else {
      assert Opened(st) == Indices(st.days) + [];
    }
  }

  /** The imported days appear in the order of their markers in the text, one per marker. */
  lemma ImportedDaysInOrder(text: string)
    ensures ImportWeek(text).Some? ==> Indices(ImportWeek(text).value.days) == Markers(Split(text, '\n'), 0)
  {
    var st := Fold(Step, Init, Split(text, '\n'), 0);
    FoldOpened(Init, Split(text, '\n'), 0);
    SaveDayOpened(st);
    assert Opened(Init) == [];
  }

  /** The import is `null` exactly when the text holds no day marker and no focus section was closed. */
  lemma ImportNullIff(text: string)
    ensures ImportWeek(text).None? <==>
      Markers(Split(text, '\n'), 0) == [] && Fold(Step, Init, Split(text, '\n'), 0).focusText == []
  {
    var st := Fold(Step, Init, Split(text, '\n'), 0);
    FoldOpened(Init, Split(text, '\n'), 0);
    FoldWellFormed(Init, Split(text, '\n'), 0);
    SaveDayWellFormed(st);
  }

  /** A line that is blank once trimmed names no day. */
  lemma BlankIsNoDay(line: string)
    requires Trim(line) == []
    ensures ParseDayName(Trim(line)) == -1 && !IsFocusHeading(Trim(line)) && !IsTitleLine(Trim(line))
  {
    ShortIsNoDay(Trim(Lower(Trim(line))));
  }

  /** No day name is shorter than two letters. */
  lemma ShortIsNoDay(n: string)
    requires |n| < 2
    ensures LookupDay(n) == -1
  {
    TokenSizes();
    assert n !in RuTokens && n !in EnTokens && n !in FullTokens;
  }

  lemma TokenSizes()
    ensures |RuTokens| == |EnTokens| == |FullTokens| == 7
    ensures forall i :: 0 <= i < 7 ==> |RuTokens[i]| == 2 && |EnTokens[i]| == 3 && |FullTokens[i]| >= 6
  {
  }

  /** Before the first day marker, and outside a focus section, a line that is neither a marker nor a
      focus heading is dropped. */
  lemma DroppedBeforeFirstDay(st: ImportState, i: nat, line: string)
    requires st.currentDayIndex == -1 && !st.inFocusSection
    requires !IsMarker(i, line) && !IsFocusHeading(Trim(line))
    ensures Step(st, i, line) == st
  {
  }

  /** Line 0 is dropped when it holds a title phrase. */
  lemma TitleSkippedAtStart(st: ImportState, line: string)
    requires IsTitleLine(Trim(line))
    ensures Step(st, 0, line) == st
  {
  }

  /** Outside a focus section, once a day is open, every later line that is not a marker or a heading joins
      that day verbatim, a title phrase included. */
  lemma LineJoinsOpenDay(st: ImportState, i: nat, line: string)
    requires i > 0 && st.currentDayIndex != -1 && !st.inFocusSection
    requires !IsFocusHeading(Trim(line)) && ParseDayName(Trim(line)) == -1
    ensures Step(st, i, line) == st.(currentDayContent := st.currentDayContent + [line])
  {
  }

  /** In a focus section, a blank line closes it once a focus line was collected, and is skipped before. */
  lemma FocusBlankLine(st: ImportState, i: nat, line: string)
    requires st.inFocusSection && Trim(line) == []
    ensures |st.focusLines| > 0 ==> Step(st, i, line) == CloseFocus(st)
    ensures st.focusLines == [] ==> Step(st, i, line) == st
  {
    BlankIsNoDay(line);
  }

  /** In a focus section, a non-blank line that is neither a marker nor a heading is collected. */
  lemma FocusLineCollected(st: ImportState, i: nat, line: string)
    requires st.inFocusSection && Trim(line) != [] && i > 0
    requires !IsFocusHeading(Trim(line)) && ParseDayName(Trim(line)) == -1
    ensures Step(st, i, line) == st.(focusLines := st.focusLines + [line])
  {
  }

  /** A day marker closes an open focus section, keeping the collected lines as the focus. */
  lemma FocusClosedByDay(st: ImportState, i: nat, line: string)
    requires st.inFocusSection && IsMarker(i, line)
    ensures Step(st, i, line).focusText == Trim(Join(st.focusLines, '\n'))
    ensures !Step(st, i, line).inFocusSection
    ensures Step(st, i, line).currentDayIndex == ParseDayName(Trim(line))
  {
  }

  /** A line a focus section collects: not blank, not a heading, not a day name. */
  predicate FocusLine(line: string)
  {
    Trim(line) != [] && !IsFocusHeading(Trim(line)) && ParseDayName(Trim(line)) == -1
  }

  lemma {:induction false} FoldFocusLines(st: ImportState, lines: seq<string>, base: nat)
    requires st.inFocusSection && base > 0
    requires forall l <- lines :: FocusLine(l)
    ensures Fold(Step, st, lines, base) == st.(focusLines := st.focusLines + lines)
    decreases |lines|
  {
    if lines == [] {
      assert st.focusLines + lines == st.focusLines;
    } else {
      assert lines[0] in lines;
      FocusLineCollected(st, base, lines[0]);
      var next := st.(focusLines := st.focusLines + [lines[0]]);
      TailMembers(lines);
      FoldFocusLines(next, lines[1..], base + 1);
      AssocSeq(st.focusLines, [lines[0]], lines[1..]);
      HeadTail(lines);
    }
  }

  lemma TailMembers<T>(xs: seq<T>)
    requires xs != []
    ensures forall x <- xs[1..] :: x in xs
  {
  }

  lemma HeadTail<T>(xs: seq<T>)
    requires xs != []
    ensures [xs[0]] + xs[1..] == xs
  {
  }

  /** A text that is one focus section running to its end imports as `null`: the collected lines are lost. */
  lemma UnclosedFocusDropped(text: string)
    requires var lines := Split(text, '\n');
      IsFocusHeading(Trim(lines[0])) && !IsTitleLine(Trim(lines[0]))
      && forall l <- lines[1..] :: FocusLine(l)
    ensures ImportWeek(text) == None
  {
    var lines := Split(text, '\n');
    var first := Step(Init, 0, lines[0]);
    assert first == Init.(inFocusSection := true);
    var rest := lines[1..];
    FoldFocusLines(first, rest, 1);
    HeadTail(lines);
    FoldAppend(Step, Init, [lines[0]], rest, 0);
  }
}
