/**
 * Export followed by import gives the week back: the trimmed focus and, for each of
 * the seven days in order, its trimmed content, or `*` for a blank day. The proof
 * reads the exported text as a list of lines and runs the import loop over them in
 * stretches: title, focus section, the first six days, the last day.
 */
module WeekRoundTrip {
  import opened Strings
  import opened Wrappers
  import opened WeekExport

  // ---------------------------------------------------------------------------
  // The exported text as lines

  /** The text written under a day's name: its trimmed content, or the placeholder `* `. */
  function Written(content: string): string
  {
    if Trim(content) != [] then Trim(content) else "* "
  }

  /** What an import reads back for a day. */
  function Shown(content: string): string
  {
    if Trim(content) != [] then Trim(content) else "*"
  }

  function DayLines(locale: Locale, days: seq<DayEntry>, i: nat): seq<string>
    requires i < 7
  {
    [DayNames(locale)[i]] + Split(Written(DayContent(days, i)), '\n') + [""]
  }

  function Groups(locale: Locale, days: seq<DayEntry>, n: nat): seq<string>
    requires n <= 7
  {
    if n == 0 then [] else Groups(locale, days, n - 1) + DayLines(locale, days, n - 1)
  }

  function FocusPart(locale: Locale, focusText: string): seq<string>
  {
    if Trim(focusText) != [] then [FocusHeading(locale)] + Split(Trim(focusText), '\n') + [""] else []
  }

  /** The last day loses the trailing blank line and placeholder space to the final trim. */
  function LastDay(locale: Locale, days: seq<DayEntry>): seq<string>
  {
    [DayNames(locale)[6]] + Split(Shown(DayContent(days, 6)), '\n')
  }

  function ExportLines(week: Week, locale: Locale, startFormatted: string, endFormatted: string): seq<string>
  {
    [Title(locale, startFormatted, endFormatted), ""] + FocusPart(locale, week.focusText)
      + Groups(locale, week.days, 6) + LastDay(locale, week.days)
  }

  // ---------------------------------------------------------------------------
  // Joining the lines gives the text

  lemma {:induction false} JoinTwo(x: string, y: string)
    ensures Join([x] + [y], '\n') == x + "\n" + y
  {
    assert ([x] + [y])[1..] == [y];
  }

  lemma {:induction false} JoinCons(x: string, ys: seq<string>)
    requires |ys| >= 1
    ensures Join([x] + ys, '\n') == x + "\n" + Join(ys, '\n')
  {
    JoinAppend([x], ys, '\n');
  }

  lemma {:induction false} JoinSnoc(xs: seq<string>, y: string)
    requires |xs| >= 1
    ensures Join(xs + [y], '\n') == Join(xs, '\n') + "\n" + y
  {
    JoinAppend(xs, [y], '\n');
  }

  /** `[name] + lines(w) + [""]`, joined, is `name`, `w` and a line break, each on its own line. */
  lemma {:induction false} JoinBlock(name: string, w: string)
    ensures Join([name] + Split(w, '\n') + [""], '\n') + "\n" == (name + "\n") + (w + "\n") + "\n"
  {
    var s := Split(w, '\n');
    JoinSplit(w, '\n');
    JoinCons(name, s);
    JoinSnoc([name] + s, "");
    BlockShape(name, w, Join([name] + s + [""], '\n'));
  }

  lemma {:induction false} BlockShape(name: string, w: string, j: string)
    requires j == name + "\n" + w + "\n" + ""
    ensures j + "\n" == (name + "\n") + (w + "\n") + "\n"
  {
  }

  lemma {:induction false} DayBlockJoin(locale: Locale, days: seq<DayEntry>, i: nat)
    requires i < 7
    ensures DayBlock(locale, days, i) == Join(DayLines(locale, days, i), '\n') + "\n"
  {
    var c := DayContent(days, i);
    JoinBlock(DayNames(locale)[i], Written(c));
    if Trim(c) == [] {
      assert "* " + "\n" == "* \n";
    }
  }

  lemma {:induction false} GroupsJoin(locale: Locale, days: seq<DayEntry>, n: nat)
    requires 1 <= n <= 7
    ensures |Groups(locale, days, n)| >= 1
    ensures DayBlocks(locale, days, n) == Join(Groups(locale, days, n), '\n') + "\n"
  {
    if n == 1 {
      GroupsOne(locale, days);
    } else {
      GroupsJoin(locale, days, n - 1);
      DayBlockJoin(locale, days, n - 1);
      JoinStep(Groups(locale, days, n - 1), DayLines(locale, days, n - 1),
        DayBlocks(locale, days, n - 1), DayBlock(locale, days, n - 1));
    }
  }

  lemma {:induction false} GroupsOne(locale: Locale, days: seq<DayEntry>)
    ensures |Groups(locale, days, 1)| >= 1
    ensures DayBlocks(locale, days, 1) == Join(Groups(locale, days, 1), '\n') + "\n"
  {
    DayBlockJoin(locale, days, 0);
    var d, b := DayLines(locale, days, 0), DayBlock(locale, days, 0);
    assert Groups(locale, days, 1) == d by {
      assert Groups(locale, days, 0) == [];
      EmptyAppend([], d);
    }
    assert DayBlocks(locale, days, 1) == b by {
      assert DayBlocks(locale, days, 0) == [];
      EmptyAppend([], b);
    }
  }

  /** Two runs of lines, each joined and ended by a break, make the joined whole ended by a break. */
  lemma {:induction false} JoinStep(g: seq<string>, d: seq<string>, x: string, y: string)
    requires |g| >= 1 && |d| >= 1
    requires x == Join(g, '\n') + "\n" && y == Join(d, '\n') + "\n"
    ensures x + y == Join(g + d, '\n') + "\n"
  {
    JoinAppend(g, d, '\n');
    LinesShape(Join(g, '\n'), Join(d, '\n'));
  }

  lemma {:induction false} LinesShape(x: string, y: string)
    ensures (x + "\n") + (y + "\n") == (x + ['\n'] + y) + "\n"
  {
  }

  lemma {:induction false} FocusJoin(locale: Locale, focusText: string)
    requires Trim(focusText) != []
    ensures FocusBlock(locale, focusText) == Join(FocusPart(locale, focusText), '\n') + "\n"
  {
    var h, t := FocusHeading(locale), Trim(focusText);
    FocusShape(h, t, Join([h] + Split(t, '\n') + [""], '\n'));
  }

  lemma {:induction false} FocusShape(h: string, t: string, j: string)
    requires j == Join([h] + Split(t, '\n') + [""], '\n')
    ensures (h + "\n") + (t + "\n\n") == j + "\n"
  {
    JoinBlock(h, t);
  }

  /** The title and a blank line, joined and ended by a break. */
  lemma {:induction false} HeadLine(t: string)
    ensures Join([t, ""], '\n') + "\n" == t + "\n\n"
  {
    JoinTwo(t, "");
    assert [t] + [""] == [t, ""];
  }

  /** The title and a blank line, then the day lines, joined. */
  lemma {:induction false} HeadJoinPlain(t: string, g: seq<string>, db: string)
    requires |g| >= 1 && db == Join(g, '\n') + "\n"
    ensures t + "\n\n" + db == Join([t, ""] + g, '\n') + "\n"
  {
    HeadLine(t);
    JoinStep([t, ""], g, t + "\n\n", db);
  }

  /** The title and a blank line, then the focus lines, then the day lines, joined. */
  lemma {:induction false} HeadJoinFocus(t: string, fp: seq<string>, g: seq<string>, fb: string, db: string)
    requires |fp| >= 1 && fb == Join(fp, '\n') + "\n"
    requires |g| >= 1 && db == Join(g, '\n') + "\n"
    ensures t + "\n\n" + fb + db == Join([t, ""] + fp + g, '\n') + "\n"
  {
    HeadLine(t);
    JoinStep([t, ""], fp, t + "\n\n", fb);
    JoinStep([t, ""] + fp, g, t + "\n\n" + fb, db);
  }

  /** The untrimmed export text is the joined lines of title, focus and all seven days, plus a break. */
  lemma {:induction false} BodyJoin(week: Week, locale: Locale, startFormatted: string, endFormatted: string)
    ensures var head := [Title(locale, startFormatted, endFormatted), ""];
      Title(locale, startFormatted, endFormatted) + "\n\n" + FocusBlock(locale, week.focusText)
        + DayBlocks(locale, week.days, 7)
      == Join(head + FocusPart(locale, week.focusText) + Groups(locale, week.days, 7), '\n') + "\n"
  {
    GroupsJoin(locale, week.days, 7);
    var t, g, db := Title(locale, startFormatted, endFormatted), Groups(locale, week.days, 7), DayBlocks(locale, week.days, 7);
    if Trim(week.focusText) == [] {
      BodyJoinPlain(locale, week.focusText, t, g, db);
    } else {
      FocusJoin(locale, week.focusText);
      HeadJoinFocus(t, FocusPart(locale, week.focusText), g, FocusBlock(locale, week.focusText), db);
    }
  }

  lemma {:induction false} BodyJoinPlain(locale: Locale, focusText: string, t: string, g: seq<string>, db: string)
    requires Trim(focusText) == [] && |g| >= 1 && db == Join(g, '\n') + "\n"
    ensures t + "\n\n" + FocusBlock(locale, focusText) + db == Join([t, ""] + FocusPart(locale, focusText) + g, '\n') + "\n"
  {
    assert [t, ""] + FocusPart(locale, focusText) + g == [t, ""] + g;
    HeadJoinPlain(t, g, db);
  }

  lemma {:induction false} TailShape(jp: string, name: string, shown: string, pad: string)
    ensures jp + "\n" + ((name + "\n") + ((shown + pad) + "\n") + "\n")
      == [] + (jp + ['\n'] + (name + "\n" + shown)) + (pad + "\n\n")
  {
  }

  lemma {:induction false} JoinHead(xs: seq<string>)
    requires |xs| >= 2 && xs[0] != []
    ensures Join(xs, '\n') != [] && Join(xs, '\n')[0] == xs[0][0]
  {
  }

  lemma {:induction false} ShownTrimmed(content: string)
    ensures var s := Shown(content); s != [] && IsTrimmed(s)
    ensures Written(content) == Shown(content) + (if Trim(content) != [] then "" else " ")
  {
  }

  lemma {:induction false} PaddedJoin(p: seq<string>, name: string, shown: string, pad: string)
    requires |p| >= 1
    ensures Join(p + ([name] + Split(shown + pad, '\n') + [""]), '\n') + "\n"
      == [] + Join(p + ([name] + Split(shown, '\n')), '\n') + (pad + "\n\n")
  {
    var d := [name] + Split(shown + pad, '\n') + [""];
    var last := [name] + Split(shown, '\n');
    JoinAppend(p, d, '\n');
    JoinBlock(name, shown + pad);
    TailShape(Join(p, '\n'), name, shown, pad);
    LastJoin(name, shown);
    JoinAppend(p, last, '\n');
  }

  lemma {:induction false} LastJoin(name: string, shown: string)
    ensures Join([name] + Split(shown, '\n'), '\n') == name + "\n" + shown
  {
    JoinSplit(shown, '\n');
    JoinCons(name, Split(shown, '\n'));
  }

  lemma {:induction false} JoinedTrimmed(p: seq<string>, name: string, shown: string)
    requires |p| >= 2 && p[0] != [] && !IsWhitespace(p[0][0])
    requires shown != [] && IsTrimmed(shown)
    ensures IsTrimmed(Join(p + ([name] + Split(shown, '\n')), '\n'))
  {
    var last := [name] + Split(shown, '\n');
    LastJoin(name, shown);
    JoinAppend(p, last, '\n');
    var m := Join(p + last, '\n');
    JoinHead(p);
    assert m[|m| - 1] == shown[|shown| - 1];
  }

  /** Trimming the joined lines drops the last day's blank line and placeholder space. */
  lemma {:induction false} TrimJoined(p: seq<string>, name: string, shown: string, pad: string)
    requires |p| >= 2 && p[0] != [] && !IsWhitespace(p[0][0])
    requires shown != [] && IsTrimmed(shown) && AllWhitespace(pad)
    ensures Trim(Join(p + ([name] + Split(shown + pad, '\n') + [""]), '\n') + "\n")
      == Join(p + ([name] + Split(shown, '\n')), '\n')
  {
    PaddedJoin(p, name, shown, pad);
    JoinedTrimmed(p, name, shown);
    AllWhitespaceConcat(pad, "\n\n");
    TrimOfPadded([], Join(p + ([name] + Split(shown, '\n')), '\n'), pad + "\n\n");
  }

  /** The exported text is the export lines joined by line breaks. */
  lemma {:induction false} ExportTextLines(week: Week, locale: Locale, startFormatted: string, endFormatted: string)
    ensures ExportText(week, locale, startFormatted, endFormatted)
      == Join(ExportLines(week, locale, startFormatted, endFormatted), '\n')
  {
    var t := Title(locale, startFormatted, endFormatted);
    var days := week.days;
    var head := [t, ""] + FocusPart(locale, week.focusText);
    var g6 := Groups(locale, days, 6);
    BodyJoin(week, locale, startFormatted, endFormatted);
    assert head + Groups(locale, days, 7) == head + g6 + DayLines(locale, days, 6);
    TitleStart(locale, startFormatted, endFormatted);
    ExportTrim(head, g6, DayNames(locale)[6], DayContent(days, 6),
      Join(head + Groups(locale, days, 7), '\n') + "\n");
  }

  lemma {:induction false} TitleStart(locale: Locale, startFormatted: string, endFormatted: string)
    ensures var t := Title(locale, startFormatted, endFormatted); t != [] && !IsWhitespace(t[0])
  {
  }

  /** The final trim turns the last day's written block into its shown lines. */
  lemma {:induction false} ExportTrim(head: seq<string>, g6: seq<string>, name: string, c: string, body: string)
    requires |head| >= 2 && head[0] != [] && !IsWhitespace(head[0][0])
    requires body == Join(head + g6 + ([name] + Split(Written(c), '\n') + [""]), '\n') + "\n"
    ensures Trim(body) == Join(head + g6 + ([name] + Split(Shown(c), '\n')), '\n')
  {
    ShownTrimmed(c);
    var pad := if Trim(c) != [] then "" else " ";
    TrimJoined(head + g6, name, Shown(c), pad);
  }

  // ---------------------------------------------------------------------------
  // The export lines hold no line break

  lemma {:induction false} TitleFacts(locale: Locale, startFormatted: string, endFormatted: string)
    requires '\n' !in startFormatted && '\n' !in endFormatted
    ensures var t := Title(locale, startFormatted, endFormatted);
      '\n' !in t && t != [] && !IsWhitespace(t[0]) && IsTitleLine(Trim(t))
  {
    if locale == Ru {
      assert "План на неделю " == "План на неделю" + " ";
      TitleOf("План на неделю", startFormatted, endFormatted);
    } else {
      assert "Week plan " == "Week plan" + " ";
      TitleOf("Week plan", startFormatted, endFormatted);
    }
  }

  /** A title line starting with a non-blank phrase keeps that phrase through a trim. */
  lemma {:induction false} TitleOf(phrase: string, startFormatted: string, endFormatted: string)
    requires phrase != [] && !IsWhitespace(phrase[0]) && !IsWhitespace(phrase[|phrase| - 1]) && '\n' !in phrase
    requires '\n' !in startFormatted && '\n' !in endFormatted
    ensures var t := (phrase + " ") + startFormatted + " - " + endFormatted;
      '\n' !in t && t != [] && !IsWhitespace(t[0]) && Contains(Trim(t), phrase)
  {
    var t := (phrase + " ") + startFormatted + " - " + endFormatted;
    assert t[..|phrase|] == phrase;
    PrefixSurvivesTrim(t, phrase);
    assert OccursAt(Trim(t), phrase, 0);
  }

  /** A prefix that starts and ends with non-blank characters is kept by a trim. */
  lemma {:induction false} PrefixSurvivesTrim(t: string, prefix: string)
    requires prefix != [] && |prefix| <= |t| && t[..|prefix|] == prefix
    requires !IsWhitespace(prefix[0]) && !IsWhitespace(prefix[|prefix| - 1])
    ensures |prefix| <= |Trim(t)| && Trim(t)[..|prefix|] == prefix
  {
    TrimStartTrimmed(t);
    TrimDecompose(t);
    var j := SpaceStart(t, 0, |t|);
    assert t[|prefix| - 1] == prefix[|prefix| - 1];
    assert Trim(t) == t[..j];
  }

  lemma {:induction false} GroupsNoBreaks(locale: Locale, days: seq<DayEntry>, n: nat)
    requires n <= 7
    ensures forall l <- Groups(locale, days, n) :: '\n' !in l
  {
    if n > 0 {
      GroupsNoBreaks(locale, days, n - 1);
      NameNoBreak(locale, n - 1);
      SplitPiecesSeparatorFree(Written(DayContent(days, n - 1)), '\n');
    }
  }

  lemma {:induction false} NameNoBreak(locale: Locale, i: nat)
    requires i < 7
    ensures '\n' !in DayNames(locale)[i]
  {
    var name := DayNames(locale)[i];
    assert |name| <= 3;
    forall k | 0 <= k < |name| ensures name[k] != '\n' {
    }
  }

  lemma {:induction false} ExportLinesNoBreaks(week: Week, locale: Locale, startFormatted: string, endFormatted: string)
    requires '\n' !in startFormatted && '\n' !in endFormatted
    ensures forall l <- ExportLines(week, locale, startFormatted, endFormatted) :: '\n' !in l
  {
    var t := Title(locale, startFormatted, endFormatted);
    TitleFacts(locale, startFormatted, endFormatted);
    FocusPartNoBreaks(locale, week.focusText);
    GroupsNoBreaks(locale, week.days, 6);
    LastDayNoBreaks(locale, week.days);
    NoBreaksConcat([t, ""], FocusPart(locale, week.focusText), Groups(locale, week.days, 6), LastDay(locale, week.days));
  }

  lemma {:induction false} NoBreaksConcat(a: seq<string>, b: seq<string>, c: seq<string>, d: seq<string>)
    requires forall l <- a :: '\n' !in l
    requires forall l <- b :: '\n' !in l
    requires forall l <- c :: '\n' !in l
    requires forall l <- d :: '\n' !in l
    ensures forall l <- a + b + c + d :: '\n' !in l
  {
  }

  lemma {:induction false} FocusPartNoBreaks(locale: Locale, focusText: string)
    ensures forall l <- FocusPart(locale, focusText) :: '\n' !in l
  {
    SplitPiecesSeparatorFree(Trim(focusText), '\n');
    assert '\n' !in FocusHeading(locale);
  }

  lemma {:induction false} LastDayNoBreaks(locale: Locale, days: seq<DayEntry>)
    ensures forall l <- LastDay(locale, days) :: '\n' !in l
  {
    NameNoBreak(locale, 6);
    SplitPiecesSeparatorFree(Shown(DayContent(days, 6)), '\n');
  }

  /** The import splits the exported text into exactly the export lines. */
  lemma {:induction false} SplitExport(week: Week, locale: Locale, startFormatted: string, endFormatted: string)
    requires '\n' !in startFormatted && '\n' !in endFormatted
    ensures Split(ExportText(week, locale, startFormatted, endFormatted), '\n')
      == ExportLines(week, locale, startFormatted, endFormatted)
  {
    ExportTextLines(week, locale, startFormatted, endFormatted);
    ExportLinesNoBreaks(week, locale, startFormatted, endFormatted);
    SplitJoin(ExportLines(week, locale, startFormatted, endFormatted), '\n');
  }

  // ---------------------------------------------------------------------------
  // Running the import over the export lines

  /** A line the import adds to the open day: neither a focus heading nor a day name. */
  predicate Inert(line: string)
  {
    !IsFocusHeading(Trim(line)) && ParseDayName(Trim(line)) == -1
  }

  /** No line of the trimmed content reads as a day name or a focus heading. */
  predicate SafeDay(content: string)
  {
    forall l <- Split(Trim(content), '\n') :: Inert(l)
  }

  /** Every day of the week has safe content. */
  predicate SafeDays(days: seq<DayEntry>)
  {
    forall k :: 0 <= k < 7 ==> SafeDay(DayContent(days, k))
  }

  /** The trimmed focus is blank, or each of its lines is one a focus section collects. */
  predicate SafeFocus(focusText: string)
  {
    Trim(focusText) == [] || forall l <- Split(Trim(focusText), '\n') :: FocusLine(l)
  }

  /** The days an import of the export yields: day `k` with its trimmed content or `*`. */
  function Expected(days: seq<DayEntry>, n: nat): (r: seq<DayEntry>)
    requires n <= 7
    ensures |r| == n
    ensures forall k :: 0 <= k < n ==> r[k] == DayEntry(k, Shown(DayContent(days, k)))
  {
    if n == 0 then [] else Expected(days, n - 1) + [DayEntry(n - 1, Shown(DayContent(days, n - 1)))]
  }

  lemma {:induction false} FoldOne(st: ImportState, line: string, base: nat)
    ensures Fold(Step, st, [line], base) == Step(st, base, line)
  {
    assert [line][1..] == [];
  }

  lemma {:induction false} FoldDayLines(st: ImportState, lines: seq<string>, base: nat)
    requires base > 0 && st.currentDayIndex != -1 && !st.inFocusSection
    requires forall l <- lines :: Inert(l)
    ensures Fold(Step, st, lines, base) == st.(currentDayContent := st.currentDayContent + lines)
    decreases |lines|
  {
    if lines == [] {
      assert st.currentDayContent + lines == st.currentDayContent;
    } else {
      assert lines[0] in lines;
      LineJoinsOpenDay(st, base, lines[0]);
      var next := st.(currentDayContent := st.currentDayContent + [lines[0]]);
      TailMembers(lines);
      FoldDayLines(next, lines[1..], base + 1);
      AssocSeq(st.currentDayContent, [lines[0]], lines[1..]);
      HeadTail(lines);
    }
  }

  lemma {:induction false} LowerWord(name: string, token: string)
    requires |name| == |token| && forall k :: 0 <= k < |name| ==> LowerChar(name[k]) == token[k]
    ensures Lower(name) == token
  {
  }

  lemma {:induction false} NameParses(name: string, token: string, i: nat)
    requires i < 7 && IsDayToken(token, i) && Lower(name) == token
    requires name != [] && IsTrimmed(name) && IsTrimmed(token) && name[0] != '🎯'
    ensures ParseDayName(Trim(name)) == i
  {
    TrimOfTrimmed(name);
    TrimOfTrimmed(token);
    var n := Trim(name);
    assert Trim(Lower(n)) == token;
    LookupFinds(token, i);
  }

  lemma {:induction false} NotHeading(name: string)
    requires name != [] && name[0] != '🎯'
    ensures !IsFocusHeading(name)
  {
    assert !StartsWith(name, "🎯") by {
      if |name| >= 1 {
        assert name[..1][0] == name[0];
      }
    }
  }

  /** The export's day names, lower-cased, are the two- and three-letter tokens. */
  lemma {:induction false} LowerNames(i: nat)
    requires i < 7
    ensures Lower(DayNamesRu[i]) == RuTokens[i] && Lower(DayNamesEn[i]) == EnTokens[i]
  {
    LowerNamesRu(i);
    LowerNamesEn(i);
  }

  lemma {:induction false} LowerNamesRu(i: nat)
    requires i < 7
    ensures Lower(DayNamesRu[i]) == RuTokens[i]
  {
    if i == 0 {
      LowerWord("Пн", "пн");
    } else if i == 1 {
      LowerWord("Вт", "вт");
    } else if i == 2 {
      LowerWord("Ср", "ср");
    } else if i == 3 {
      LowerWord("Чт", "чт");
    } else if i == 4 {
      LowerWord("Пт", "пт");
    } else if i == 5 {
      LowerWord("Сб", "сб");
    } else {
      LowerWord("Вс", "вс");
    }
  }

  lemma {:induction false} LowerNamesEn(i: nat)
    requires i < 7
    ensures Lower(DayNamesEn[i]) == EnTokens[i]
  {
    if i == 0 {
      LowerWord("Mon", "mon");
    } else if i == 1 {
      LowerWord("Tue", "tue");
    } else if i == 2 {
      LowerWord("Wed", "wed");
    } else if i == 3 {
      LowerWord("Thu", "thu");
    } else if i == 4 {
      LowerWord("Fri", "fri");
    } else if i == 5 {
      LowerWord("Sat", "sat");
    } else {
      LowerWord("Sun", "sun");
    }
  }

  /** A short word of letters, none of them whitespace or the focus marker. */
  lemma {:induction false} WordTrimmed(w: string)
    requires 2 <= |w| <= 3
    requires forall k :: 0 <= k < |w| ==> ('A' <= w[k] <= 'z' || '\U{0400}' <= w[k] <= '\U{044F}')
    ensures IsTrimmed(w) && w[0] != '🎯'
  {
  }

  /** The day names and their tokens have no whitespace at either end. */
  lemma {:induction false} NamesTrimmed(i: nat)
    requires i < 7
    ensures IsTrimmed(DayNamesRu[i]) && IsTrimmed(DayNamesEn[i]) && IsTrimmed(RuTokens[i]) && IsTrimmed(EnTokens[i])
    ensures DayNamesRu[i] != [] && DayNamesRu[i][0] != '🎯' && DayNamesEn[i] != [] && DayNamesEn[i][0] != '🎯'
  {
    WordTrimmed(DayNamesRu[i]);
    WordTrimmed(DayNamesEn[i]);
    WordTrimmed(RuTokens[i]);
    WordTrimmed(EnTokens[i]);
  }

  /** Each day name written by the export reads back as its own day. */
  lemma {:induction false} DayNameParses(locale: Locale, i: nat)
    requires i < 7
    ensures ParseDayName(Trim(DayNames(locale)[i])) == i && !IsFocusHeading(Trim(DayNames(locale)[i]))
  {
    var name := DayNames(locale)[i];
    var token := if locale == Ru then RuTokens[i] else EnTokens[i];
    LowerNames(i);
    NamesTrimmed(i);
    NameParses(name, token, i);
    TrimOfTrimmed(name);
    NotHeading(name);
  }

  lemma {:induction false} DayNameStep(st: ImportState, locale: Locale, i: nat, base: nat)
    requires i < 7 && base > 0 && !st.inFocusSection
    ensures Step(st, base, DayNames(locale)[i]) == SaveDay(st).(currentDayIndex := i, currentDayContent := [])
  {
    DayNameParses(locale, i);
  }

  lemma {:induction false} StarInert()
    ensures Inert("* ") && Inert("*")
  {
    assert Trim("* ") == "*" by {
      TrimOfPadded([], "*", " ");
    }
    TrimOfTrimmed("*");
    NotHeading("*");
    ShortIsNoDay(Trim(Lower("*")));
  }

  /** The lines written under a day, and those of the last day, are all inert. */
  lemma {:induction false} WrittenInert(content: string)
    requires SafeDay(content)
    ensures forall l <- Split(Written(content), '\n') :: Inert(l)
    ensures forall l <- Split(Shown(content), '\n') :: Inert(l)
  {
    if Trim(content) == [] {
      StarLinesInert();
    }
  }

  lemma {:induction false} StarLinesInert()
    ensures forall l <- Split("* ", '\n') :: Inert(l)
    ensures forall l <- Split("*", '\n') :: Inert(l)
  {
    StarInert();
    SingleLineInert("* ");
    SingleLineInert("*");
  }

  lemma {:induction false} SingleLineInert(line: string)
    requires Inert(line) && '\n' !in line
    ensures forall l <- Split(line, '\n') :: Inert(l)
  {
    SplitWithoutSeparator(line, '\n');
  }

  /** What the import saves for a day, from the lines the export wrote under it. */
  lemma {:induction false} ShownOfWritten(content: string)
    ensures Trim(Join(Split(Written(content), '\n') + [""], '\n')) == Shown(content)
    ensures Trim(Join(Split(Shown(content), '\n'), '\n')) == Shown(content)
  {
    var w := Written(content);
    JoinSplit(w, '\n');
    JoinSnoc(Split(w, '\n'), "");
    assert AllWhitespace("\n" + "");
    TrimAppendWhitespace(w, "\n" + "");
    assert w + "\n" + "" == w + ("\n" + "");
    JoinSplit(Shown(content), '\n');
    ShownTrimmed(content);
    TrimOfTrimmed(Shown(content));
    if Trim(content) != [] {
      TrimOfTrimmed(Trim(content));
    } else {
      TrimOfPadded([], "*", " ");
    }
  }

  /** A day name opens its day, saving the one before; the inert lines after it join the new day. */
  lemma {:induction false} OpenDay(st: ImportState, name: string, i: nat, lines: seq<string>, base: nat)
    requires i < 7 && base > 0 && !st.inFocusSection
    requires ParseDayName(Trim(name)) == i && !IsFocusHeading(Trim(name))
    requires forall l <- lines :: Inert(l)
    ensures Fold(Step, st, [name] + lines, base) == SaveDay(st).(currentDayIndex := i, currentDayContent := lines)
  {
    FoldAppend(Step, st, [name], lines, base);
    FoldOne(st, name, base);
    var started := SaveDay(st).(currentDayIndex := i, currentDayContent := []);
    assert Step(st, base, name) == started;
    FoldDayLines(started, lines, base + 1);
    assert [] + lines == lines;
  }

  /** A blank line joins the open day. */
  lemma {:induction false} BlankJoins(st: ImportState, base: nat)
    requires base > 0 && st.currentDayIndex != -1 && !st.inFocusSection
    ensures Fold(Step, st, [""], base) == st.(currentDayContent := st.currentDayContent + [""])
  {
    FoldOne(st, "", base);
    BlankIsNoDay("");
    LineJoinsOpenDay(st, base, "");
  }

  /** Day groups in general: name `k`, then body `k`, for each `k < n`. */
  function Blocks(names: seq<string>, bodies: seq<seq<string>>, n: nat): seq<string>
    requires n <= |names| && n <= |bodies|
  {
    if n == 0 then [] else Blocks(names, bodies, n - 1) + ([names[n - 1]] + bodies[n - 1])
  }

  /** The days saved from the first `n` groups. */
  function Saved(bodies: seq<seq<string>>, n: nat): (r: seq<DayEntry>)
    requires n <= |bodies|
    ensures |r| == n
    ensures forall k :: 0 <= k < n ==> r[k] == DayEntry(k, Trim(Join(bodies[k], '\n')))
  {
    if n == 0 then [] else Saved(bodies, n - 1) + [DayEntry(n - 1, Trim(Join(bodies[n - 1], '\n')))]
  }

  /** Name `k` reads as day `k`, and no line of body `k` reads as a name or a heading. */
  predicate Readable(names: seq<string>, bodies: seq<seq<string>>)
    requires |names| == |bodies|
  {
    forall k :: 0 <= k < |names| ==>
      ParseDayName(Trim(names[k])) == k && !IsFocusHeading(Trim(names[k])) && forall l <- bodies[k] :: Inert(l)
  }

  /** Under `step`, group `k` saves the open day, if any, and leaves day `k` open with body `k`. */
  ghost predicate OpensDays(step: (ImportState, nat, string) -> ImportState, names: seq<string>, bodies: seq<seq<string>>)
    requires |names| == |bodies|
  {
    forall k, st: ImportState, b: nat :: 0 <= k < |names| && b > 0 && !st.inFocusSection ==>
      Fold(step, st, [names[k]] + bodies[k], b) == SaveDay(st).(currentDayIndex := k, currentDayContent := bodies[k])
  }

  lemma {:induction false} ReadableOpens(names: seq<string>, bodies: seq<seq<string>>)
    requires |names| == |bodies| && Readable(names, bodies)
    ensures OpensDays(Step, names, bodies)
  {
    forall k, st: ImportState, b: nat | 0 <= k < |names| && b > 0 && !st.inFocusSection
      ensures Fold(Step, st, [names[k]] + bodies[k], b) == SaveDay(st).(currentDayIndex := k, currentDayContent := bodies[k])
    {
      OpenDay(st, names[k], k, bodies[k], b);
    }
  }

  /** The state after `n` groups: days `0 .. n - 2` saved, day `n - 1` open with its body. */
  function AfterBlocks(s0: ImportState, bodies: seq<seq<string>>, n: nat): ImportState
    requires 1 <= n <= |bodies|
  {
    s0.(days := Saved(bodies, n - 1), currentDayIndex := n - 1, currentDayContent := bodies[n - 1])
  }

  lemma {:induction false} SaveBlock(s0: ImportState, bodies: seq<seq<string>>, n: nat)
    requires 2 <= n <= |bodies|
    ensures SaveDay(AfterBlocks(s0, bodies, n - 1)).(currentDayIndex := n - 1, currentDayContent := bodies[n - 1])
      == AfterBlocks(s0, bodies, n)
  {
  }

  lemma {:induction false} FoldBlocks(step: (ImportState, nat, string) -> ImportState, s0: ImportState,
                                      names: seq<string>, bodies: seq<seq<string>>, n: nat, base: nat)
    requires |names| == |bodies| && OpensDays(step, names, bodies)
    requires 1 <= n <= |names| && base > 0
    requires s0.currentDayIndex == -1 && !s0.inFocusSection && s0.days == []
    ensures Fold(step, s0, Blocks(names, bodies, n), base) == AfterBlocks(s0, bodies, n)
  {
    var g, d := Blocks(names, bodies, n - 1), [names[n - 1]] + bodies[n - 1];
    FoldAppend(step, s0, g, d, base);
    if n == 1 {
      assert g == [];
    } else {
      FoldBlocks(step, s0, names, bodies, n - 1, base);
      SaveBlock(s0, bodies, n);
    }
  }

  /** Two stretches run one after the other, with the state between them named. */
  lemma {:induction false} FoldThen(step: (ImportState, nat, string) -> ImportState, st: ImportState, xs: seq<string>,
                 ys: seq<string>, base: nat, mid: ImportState, last: ImportState)
    requires Fold(step, st, xs, base) == mid && Fold(step, mid, ys, base + |xs|) == last
    ensures Fold(step, st, xs + ys, base) == last
  {
    FoldAppend(step, st, xs, ys, base);
  }

  /** The lines the export writes under each day, up to the next day's name. */
  function Bodies(days: seq<DayEntry>): (b: seq<seq<string>>)
    ensures |b| == 7
    ensures forall k :: 0 <= k < 7 ==> b[k] == Split(Written(DayContent(days, k)), '\n') + [""]
  {
    seq(7, k requires 0 <= k < 7 => Split(Written(DayContent(days, k)), '\n') + [""])
  }

  lemma {:induction false} GroupsAreBlocks(locale: Locale, days: seq<DayEntry>, n: nat)
    requires n <= 7
    ensures Groups(locale, days, n) == Blocks(DayNames(locale), Bodies(days), n)
  {
    if n > 0 {
      GroupsAreBlocks(locale, days, n - 1);
      var name, w := DayNames(locale)[n - 1], Split(Written(DayContent(days, n - 1)), '\n');
      assert [name] + w + [""] == [name] + (w + [""]);
    }
  }

  lemma {:induction false} ExportReadable(locale: Locale, days: seq<DayEntry>)
    requires SafeDays(days)
    ensures Readable(DayNames(locale), Bodies(days))
  {
    forall k | 0 <= k < 7
      ensures ParseDayName(Trim(DayNames(locale)[k])) == k && !IsFocusHeading(Trim(DayNames(locale)[k]))
      ensures forall l <- Bodies(days)[k] :: Inert(l)
    {
      DayNameParses(locale, k);
      WrittenInert(DayContent(days, k));
      BlankIsNoDay("");
    }
  }

  /** The last day's lines: the name saves day 5 and opens day 6. */
  lemma {:induction false} LastStep(st: ImportState, locale: Locale, days: seq<DayEntry>, base: nat)
    requires base > 0 && !st.inFocusSection
    requires SafeDay(DayContent(days, 6))
    ensures Fold(Step, st, LastDay(locale, days), base)
      == SaveDay(st).(currentDayIndex := 6, currentDayContent := Split(Shown(DayContent(days, 6)), '\n'))
  {
    DayNameParses(locale, 6);
    WrittenInert(DayContent(days, 6));
    OpenDay(st, DayNames(locale)[6], 6, Split(Shown(DayContent(days, 6)), '\n'), base);
  }

  /** The title line is dropped, and so is the blank line after it. */
  lemma {:induction false} HeadStep(locale: Locale, startFormatted: string, endFormatted: string)
    requires '\n' !in startFormatted && '\n' !in endFormatted
    ensures Fold(Step, Init, [Title(locale, startFormatted, endFormatted), ""], 0) == Init
  {
    var t := Title(locale, startFormatted, endFormatted);
    TitleFacts(locale, startFormatted, endFormatted);
    assert [t, ""] == [t] + [""];
    TitleSkippedAtStart(Init, t);
    FoldOne(Init, t, 0);
    BlankIsNoDay("");
    DroppedBeforeFirstDay(Init, 1, "");
    FoldOne(Init, "", 1);
    FoldThen(Step, Init, [t], [""], 0, Init, Init);
  }

  lemma {:induction false} HeadingFacts(locale: Locale)
    ensures IsFocusHeading(Trim(FocusHeading(locale)))
  {
    var h := FocusHeading(locale);
    TrimOfTrimmed(h);
    assert h[..1] == "🎯";
    var word, at := if locale == Ru then "Фокус" else "Focus", if locale == Ru then 2 else 7;
    assert h[at..at + |word|] == word;
    assert OccursAt(h, word, at);
  }

  lemma {:induction false} FocusOpens(locale: Locale, base: nat)
    requires base > 0
    ensures Fold(Step, Init, [FocusHeading(locale)], base) == Init.(inFocusSection := true)
  {
    HeadingFacts(locale);
    FoldOne(Init, FocusHeading(locale), base);
  }

  lemma {:induction false} FocusCloses(st: ImportState, base: nat)
    requires st.inFocusSection && |st.focusLines| > 0
    ensures Fold(Step, st, [""], base) == CloseFocus(st)
  {
    FocusBlankLine(st, base, "");
    FoldOne(st, "", base);
  }

  lemma {:induction false} FocusKept(focusText: string)
    ensures Trim(Join(Split(Trim(focusText), '\n'), '\n')) == Trim(focusText)
  {
    JoinSplit(Trim(focusText), '\n');
    TrimOfTrimmed(Trim(focusText));
  }

  /** The focus section: the heading opens it, its lines are collected, the blank line closes it. */
  lemma {:induction false} FocusStep(locale: Locale, focusText: string, base: nat)
    requires Trim(focusText) != [] && SafeFocus(focusText) && base > 0
    ensures Fold(Step, Init, FocusPart(locale, focusText), base)
      == Init.(focusText := Trim(focusText), focusLines := Split(Trim(focusText), '\n'))
  {
    var h, lines := FocusHeading(locale), Split(Trim(focusText), '\n');
    var inFocus := Init.(inFocusSection := true);
    var collected := inFocus.(focusLines := lines);
    FocusOpens(locale, base);
    FoldFocusLines(inFocus, lines, base + 1);
    FoldThen(Step, Init, [h], lines, base, inFocus, collected);
    FocusCloses(collected, base + |[h] + lines|);
    FocusKept(focusText);
    FoldThen(Step, Init, [h] + lines, [""], base, collected, CloseFocus(collected));
  }

  /** The state once the title and focus lines are read. */
  function AfterFocus(focusText: string): ImportState
  {
    if Trim(focusText) != [] then Init.(focusText := Trim(focusText), focusLines := Split(Trim(focusText), '\n'))
    else Init
  }

  lemma {:induction false} FocusPartStep(locale: Locale, focusText: string, base: nat)
    requires SafeFocus(focusText) && base > 0
    ensures Fold(Step, Init, FocusPart(locale, focusText), base) == AfterFocus(focusText)
  {
    if Trim(focusText) != [] {
      FocusStep(locale, focusText, base);
    } else {
      FocusAbsent(locale, focusText, base);
    }
  }

  lemma {:induction false} FocusAbsent(locale: Locale, focusText: string, base: nat)
    requires Trim(focusText) == []
    ensures Fold(Step, Init, FocusPart(locale, focusText), base) == Init
  {
    var fp := FocusPart(locale, focusText);
    assert fp == [];
  }

  /** The six full day groups. */
  lemma {:induction false} DaysStep(locale: Locale, days: seq<DayEntry>, s0: ImportState, base: nat)
    requires s0.currentDayIndex == -1 && !s0.inFocusSection && s0.days == [] && base > 0
    requires SafeDays(days)
    ensures Fold(Step, s0, Groups(locale, days, 6), base) == AfterBlocks(s0, Bodies(days), 6)
  {
    GroupsAreBlocks(locale, days, 6);
    ExportReadable(locale, days);
    ReadableOpens(DayNames(locale), Bodies(days));
    FoldBlocks(Step, s0, DayNames(locale), Bodies(days), 6, base);
  }

  lemma {:induction false} SavedDay(days: seq<DayEntry>, k: nat)
    requires k < 7
    ensures Trim(Join(Bodies(days)[k], '\n')) == Shown(DayContent(days, k))
  {
    ShownOfWritten(DayContent(days, k));
  }

  lemma {:induction false} SavedSix(days: seq<DayEntry>)
    ensures Saved(Bodies(days), 6) == Expected(days, 6)
  {
    forall k | 0 <= k < 6 ensures Saved(Bodies(days), 6)[k] == Expected(days, 6)[k] {
      SavedDay(days, k);
    }
  }

  /** The days saved at the end are the expected ones. */
  lemma {:induction false} FinalDays(s0: ImportState, days: seq<DayEntry>)
    ensures var last := SaveDay(AfterBlocks(s0, Bodies(days), 6)).(currentDayIndex := 6,
        currentDayContent := Split(Shown(DayContent(days, 6)), '\n'));
      SaveDay(last).days == Expected(days, 7)
  {
    var b := Bodies(days);
    assert SaveDay(AfterBlocks(s0, b, 6)).days == Saved(b, 6);
    SavedSix(days);
    ShownOfWritten(DayContent(days, 6));
  }

  /** The state after the six full day groups. */
  function DaysDone(week: Week): ImportState
  {
    AfterBlocks(AfterFocus(week.focusText), Bodies(week.days), 6)
  }

  /** The state after the last line: day 6 is open with its shown content. */
  function LastOpen(week: Week): ImportState
  {
    SaveDay(DaysDone(week)).(currentDayIndex := 6, currentDayContent := Split(Shown(DayContent(week.days, 6)), '\n'))
  }

  /** Running the loop over four stretches of lines that start at line numbers 0, `n1`, `n2` and `n3`. */
  lemma {:induction false} FoldFour(step: (ImportState, nat, string) -> ImportState, s0: ImportState,
                                    a: seq<string>, b: seq<string>, c: seq<string>, d: seq<string>,
                                    n1: nat, n2: nat, n3: nat,
                                    s1: ImportState, s2: ImportState, s3: ImportState, s4: ImportState)
    requires n1 == |a| && n2 == n1 + |b| && n3 == n2 + |c|
    requires Fold(step, s0, a, 0) == s1 && Fold(step, s1, b, n1) == s2
    requires Fold(step, s2, c, n2) == s3 && Fold(step, s3, d, n3) == s4
    ensures Fold(step, s0, a + b + c + d, 0) == s4
  {
    FoldThen(step, s0, a, b, 0, s1, s2);
    FoldThen(step, s0, a + b, c, 0, s2, s3);
    FoldThen(step, s0, a + b + c, d, 0, s3, s4);
  }

  /** The export's lines, and the state the loop reaches on them. */
  lemma {:induction false} ExportRun(week: Week, locale: Locale, startFormatted: string, endFormatted: string)
    returns (lines: seq<string>)
    requires '\n' !in startFormatted && '\n' !in endFormatted
    requires SafeFocus(week.focusText) && SafeDays(week.days)
    ensures Split(ExportText(week, locale, startFormatted, endFormatted), '\n') == lines
    ensures Fold(Step, Init, lines, 0) == LastOpen(week)
  {
    var head, fp := FrontStretches(week, locale, startFormatted, endFormatted);
    var n1: nat := |head|;
    var n2: nat := n1 + |fp|;
    var g, last, n3 := DayStretches(week, locale, n2);
    FoldFour(Step, Init, head, fp, g, last, n1, n2, n3, Init, AfterFocus(week.focusText), DaysDone(week), LastOpen(week));
    lines := head + fp + g + last;
    SplitExport(week, locale, startFormatted, endFormatted);
  }

  /** The title and blank line leave the state alone; the focus lines set the focus. */
  lemma {:induction false} FrontStretches(week: Week, locale: Locale, startFormatted: string, endFormatted: string)
    returns (head: seq<string>, fp: seq<string>)
    requires '\n' !in startFormatted && '\n' !in endFormatted
    requires SafeFocus(week.focusText)
    ensures head == [Title(locale, startFormatted, endFormatted), ""] && fp == FocusPart(locale, week.focusText)
    ensures Fold(Step, Init, head, 0) == Init
    ensures Fold(Step, Init, fp, |head|) == AfterFocus(week.focusText)
  {
    head := [Title(locale, startFormatted, endFormatted), ""];
    fp := FocusPart(locale, week.focusText);
    HeadStep(locale, startFormatted, endFormatted);
    FocusPartStep(locale, week.focusText, |head|);
  }

  /** The six full day groups from line `base` on, then the last day from line `next` on. */
  lemma {:induction false} DayStretches(week: Week, locale: Locale, base: nat)
    returns (g: seq<string>, last: seq<string>, next: nat)
    requires base > 0
    requires SafeDays(week.days)
    ensures g == Groups(locale, week.days, 6) && last == LastDay(locale, week.days) && next == base + |g|
    ensures Fold(Step, AfterFocus(week.focusText), g, base) == DaysDone(week)
    ensures Fold(Step, DaysDone(week), last, next) == LastOpen(week)
  {
    g := Groups(locale, week.days, 6);
    DaysStep(locale, week.days, AfterFocus(week.focusText), base);
    next := base + |g|;
    last := LastStretch(week, locale, next);
  }

  lemma {:induction false} LastStretch(week: Week, locale: Locale, base: nat) returns (last: seq<string>)
    requires base > 0 && SafeDay(DayContent(week.days, 6))
    ensures last == LastDay(locale, week.days)
    ensures Fold(Step, DaysDone(week), last, base) == LastOpen(week)
  {
    last := LastDay(locale, week.days);
    LastStep(DaysDone(week), locale, week.days, base);
  }

  /** The end of the loop keeps the trimmed focus and returns the expected days. */
  lemma {:induction false} FinishLast(week: Week)
    ensures Finish(LastOpen(week)) == Some(Imported(Trim(week.focusText), Expected(week.days, 7)))
  {
    FinalDays(AfterFocus(week.focusText), week.days);
  }

  /**
   * Importing an export gives back the trimmed focus and the seven days in order, each with
   * its trimmed content or `*` when blank. It needs the dates to be single-line, and no line
   * of the focus or of a day to read as a day name or a focus heading; a focus line must also
   * not be blank, since a blank line ends the focus section.
   */
  lemma {:induction false} ExportImportRoundTrip(week: Week, locale: Locale, startFormatted: string, endFormatted: string)
    requires '\n' !in startFormatted && '\n' !in endFormatted
    requires SafeFocus(week.focusText) && SafeDays(week.days)
    ensures ImportWeek(ExportText(week, locale, startFormatted, endFormatted))
      == Some(Imported(Trim(week.focusText), Expected(week.days, 7)))
  {
    var lines := ExportRun(week, locale, startFormatted, endFormatted);
    FinishLast(week);
  }
}
