/**
 * The translation helpers of src/hooks/use-translation.ts: `interpolate`, which
 * replaces `{{key}}` placeholders by values in one left-to-right pass, and
 * `pluralize`, which picks a plural form.
 * The `vars` record is a map; numbers are integers, written in decimal.
 */
module Translation {
  import opened Wrappers
  import opened Strings

  // ---------------------------------------------------------------------------
  // Values and their text

  /** A value of the `vars` record. */
  datatype Value = Text(s: string) | Number(n: int)

  function DigitChar(d: int): (c: char)
    requires 0 <= d < 10
    ensures IsDigit(c) && c as int - '0' as int == d
  {
    ('0' as int + d) as char
  }

  /** The decimal digits of `n`, most significant first. */
  function Digits(n: nat): (r: string)
    ensures |r| >= 1
    ensures forall i :: 0 <= i < |r| ==> IsDigit(r[i])
    ensures r[0] == '0' ==> n == 0
    decreases n
  {
    if n < 10 then [DigitChar(n)] else Digits(n / 10) + [DigitChar(n % 10)]
  }

  /** The number a string of decimal digits denotes. */
  function DecimalValue(ds: string): int
    requires forall i :: 0 <= i < |ds| ==> IsDigit(ds[i])
  {
    if ds == [] then 0 else DecimalValue(ds[..|ds| - 1]) * 10 + (ds[|ds| - 1] as int - '0' as int)
  }

  /** The digits denote the number they were written from. */
  lemma {:induction false} DigitsRoundTrip(n: nat)
    ensures DecimalValue(Digits(n)) == n
    decreases n
  {
    if n >= 10 {
      var ds := Digits(n);
      assert ds[..|ds| - 1] == Digits(n / 10);
      DigitsRoundTrip(n / 10);
    }
  }

  /** `n.toString()` on an integer: an optional minus sign and the digits, never empty. */
  function NumberText(n: int): (r: string)
    ensures r != []
  {
    if n < 0 then "-" + Digits(-n) else Digits(n)
  }

  /** `value.toString()`. */
  function ValueText(v: Value): string
  {
    match v
    case Text(s) => s
    case Number(n) => NumberText(n)
  }

  // ---------------------------------------------------------------------------
  // Placeholders

  /** The regex class `\w`. */
  predicate IsWordChar(c: char)
  {
    'a' <= c <= 'z' || 'A' <= c <= 'Z' || '0' <= c <= '9' || c == '_'
  }

  /** What `\w+` matches: a non-empty run of word characters. */
  predicate IsWord(k: string)
  {
    |k| >= 1 && forall i :: 0 <= i < |k| ==> IsWordChar(k[i])
  }

  function Placeholder(key: string): string
  {
    "{{" + key + "}}"
  }

  /** `s` starts with a placeholder. */
  ghost predicate StartsWithPlaceholder(s: string)
  {
    exists k :: IsWord(k) && StartsWith(s, Placeholder(k))
  }

  /** `s` holds a placeholder somewhere. */
  ghost predicate HasPlaceholder(s: string)
  {
    exists k :: IsWord(k) && Contains(s, Placeholder(k))
  }

  /** The end of the longest run of word characters that starts at position `i`. */
  function WordEnd(s: string, i: nat): (j: nat)
    requires i <= |s|
    ensures i <= j <= |s|
    ensures forall k :: i <= k < j ==> IsWordChar(s[k])
    ensures j == |s| || !IsWordChar(s[j])
    decreases |s| - i
  {
    if i < |s| && IsWordChar(s[i]) then WordEnd(s, i + 1) else i
  }

  /** A run of word characters ended by a non-word character is where the scan stops. */
  lemma {:induction false} WordEndAt(s: string, i: nat, j: nat)
    requires i <= j <= |s|
    requires forall k :: i <= k < j ==> IsWordChar(s[k])
    requires j == |s| || !IsWordChar(s[j])
    ensures WordEnd(s, i) == j
    decreases j - i
  {
    if i < j {
      WordEndAt(s, i + 1, j);
    }
  }

  /** A match of `\{\{(\w+)\}\}`: the captured key and the position just after the match. */
  datatype Hole = Hole(key: string, end: nat)

  /** The match that starts at position `i`, if any. After `{{` the greedy `\w+` takes the whole run of
      word characters; giving any back cannot help, as `}` is not a word character. */
  function HoleAt(s: string, i: nat): (h: Option<Hole>)
    requires i <= |s|
    ensures h.Some? ==>
      && IsWord(h.value.key) && i + |Placeholder(h.value.key)| == h.value.end <= |s|
      && s[i..h.value.end] == Placeholder(h.value.key)
  {
    if i + 2 <= |s| && s[i] == '{' && s[i + 1] == '{' then
      var j := WordEnd(s, i + 2);
      if j > i + 2 && j + 2 <= |s| && s[j] == '}' && s[j + 1] == '}' then
        var key := s[i + 2..j];
        assert s[i..j + 2] == Placeholder(key);
        Some(Hole(key, j + 2))
      else None
    else None
  }

  /** Every placeholder is found where it starts. */
  lemma HoleAtFinds(s: string, i: nat, k: string)
    requires IsWord(k) && i + |Placeholder(k)| <= |s| && s[i..i + |Placeholder(k)|] == Placeholder(k)
    ensures HoleAt(s, i) == Some(Hole(k, i + |Placeholder(k)|))
  {
    var j := i + 2 + |k|;
    var p := Placeholder(k);
    assert forall m :: 0 <= m < |p| ==> s[i + m] == p[m];
    assert s[j] == '}';
    assert s[i + 2..j] == s[i..i + |p|][2..2 + |k|];
    assert p[2..2 + |k|] == k;
    WordEndAt(s, i + 2, j);
  }

  /** A match depends only on what follows its start. */
  lemma HoleAtSuffix(s: string, i: nat)
    requires i <= |s|
    ensures HoleAt(s, i).None? <==> HoleAt(s[i..], 0).None?
    ensures HoleAt(s, i).Some? ==> HoleAt(s[i..], 0) == Some(Hole(HoleAt(s, i).value.key, HoleAt(s, i).value.end - i))
  {
    var t := s[i..];
    if HoleAt(s, i).Some? {
      var h := HoleAt(s, i).value;
      assert t[..|Placeholder(h.key)|] == s[i..h.end];
      HoleAtFinds(t, 0, h.key);
    }
    if HoleAt(t, 0).Some? {
      var h := HoleAt(t, 0).value;
      assert s[i..i + h.end] == t[..h.end];
      HoleAtFinds(s, i, h.key);
    }
  }

  // ---------------------------------------------------------------------------
  // interpolate

  /** The key has a value that replaces its placeholder: `vars[key]?.toString()` is present and not empty. */
  predicate Substitutes(vars: map<string, Value>, key: string)
  {
    key in vars && ValueText(vars[key]) != []
  }

  /** The callback of the replace: the value's text, or the match itself when that text is missing or empty. */
  function Replacement(vars: map<string, Value>, key: string, matched: string): (r: string)
    ensures Substitutes(vars, key) ==> r == ValueText(vars[key])
    ensures !Substitutes(vars, key) ==> r == matched
  {
    if key in vars && ValueText(vars[key]) != [] then ValueText(vars[key]) else matched
  }

  /** `interpolate(str, vars)`: the global replace, scanning from the front. A match is replaced and
      the scan resumes after it; any other character is copied. A match depends only on the text from
      its start on (`HoleAtSuffix`), so resuming the scan is interpolating the rest of the text. */
  function Interpolate(s: string, vars: map<string, Value>): string
    decreases |s|
  {
    if s == [] then []
    else
      match HoleAt(s, 0)
      case Some(h) => Replacement(vars, h.key, s[..h.end]) + Interpolate(s[h.end..], vars)
      case None => [s[0]] + Interpolate(s[1..], vars)
  }

  /** A placeholder at the front is replaced, or kept, as a whole; its replacement is not scanned again
      and interpolation carries on with what follows it. */
  lemma PlaceholderThenRest(k: string, t: string, vars: map<string, Value>)
    requires IsWord(k)
    ensures Interpolate(Placeholder(k) + t, vars) == Replacement(vars, k, Placeholder(k)) + Interpolate(t, vars)
  {
    var s := Placeholder(k) + t;
    assert s[..|Placeholder(k)|] == Placeholder(k);
    HoleAtFinds(s, 0, k);
    assert s[|Placeholder(k)|..] == t;
  }

  /** A character that does not start a placeholder is copied, and interpolation carries on after it. */
  lemma CharThenRest(s: string, vars: map<string, Value>)
    requires s != [] && !StartsWithPlaceholder(s)
    ensures Interpolate(s, vars) == [s[0]] + Interpolate(s[1..], vars)
  {
    HoleStartsPlaceholder(s);
  }

  /** A match at the front is a placeholder at the front. */
  lemma HoleStartsPlaceholder(s: string)
    ensures HoleAt(s, 0).Some? ==> StartsWithPlaceholder(s)
  {
    if HoleAt(s, 0).Some? {
      var h := HoleAt(s, 0).value;
      assert StartsWith(s, Placeholder(h.key));
    }
  }

  /** Every placeholder starts with `{`. */
  lemma BraceStartsPlaceholder(s: string)
    requires s != [] && s[0] != '{'
    ensures !StartsWithPlaceholder(s)
  {
    forall k | IsWord(k) ensures !StartsWith(s, Placeholder(k)) {
      if |Placeholder(k)| <= |s| {
        assert s[..|Placeholder(k)|][0] == s[0];
      }
    }
  }

  /** No placeholder of `s` has a value that would replace it. */
  ghost predicate NoneSubstitutes(s: string, vars: map<string, Value>)
  {
    forall k :: IsWord(k) && Contains(s, Placeholder(k)) ==> !Substitutes(vars, k)
  }

  /** When no placeholder of `s` has a value that substitutes, `s` comes back unchanged. */
  lemma {:induction false} NothingSubstituted(s: string, vars: map<string, Value>)
    requires NoneSubstitutes(s, vars)
    ensures Interpolate(s, vars) == s
    decreases |s|
  {
    if s != [] {
      match HoleAt(s, 0)
      case Some(h) =>
        HoleKept(s, vars);
        SuffixNoneSubstitutes(s, vars, h.end);
        NothingSubstituted(s[h.end..], vars);
        KeptThenRest(s, vars);
      case None =>
        SuffixNoneSubstitutes(s, vars, 1);
        NothingSubstituted(s[1..], vars);
        CopiedThenRest(s, vars);
    }
  }

  lemma {:induction false} KeptThenRest(s: string, vars: map<string, Value>)
    requires HoleAt(s, 0).Some? && !Substitutes(vars, HoleAt(s, 0).value.key)
    requires var e := HoleAt(s, 0).value.end; Interpolate(s[e..], vars) == s[e..]
    ensures Interpolate(s, vars) == s
  {
    var e := HoleAt(s, 0).value.end;
    assert s == s[..e] + s[e..];
  }

  lemma {:induction false} CopiedThenRest(s: string, vars: map<string, Value>)
    requires s != [] && HoleAt(s, 0).None? && Interpolate(s[1..], vars) == s[1..]
    ensures Interpolate(s, vars) == s
  {
    assert s == [s[0]] + s[1..];
  }

  /** A match whose key does not substitute is kept as it is. */
  lemma {:induction false} HoleKept(s: string, vars: map<string, Value>)
    requires NoneSubstitutes(s, vars) && HoleAt(s, 0).Some?
    ensures !Substitutes(vars, HoleAt(s, 0).value.key)
  {
    var h := HoleAt(s, 0).value;
    assert OccursAt(s, Placeholder(h.key), 0);
  }

  /** What follows a position has no placeholders that `s` does not have. */
  lemma {:induction false} SuffixNoneSubstitutes(s: string, vars: map<string, Value>, e: nat)
    requires NoneSubstitutes(s, vars) && e <= |s|
    ensures NoneSubstitutes(s[e..], vars)
  {
    forall k | IsWord(k) && Contains(s[e..], Placeholder(k)) ensures !Substitutes(vars, k) {
      ContainsSuffix(s, e, Placeholder(k));
    }
  }

  lemma {:induction false} ContainsSuffix(s: string, e: nat, part: string)
    requires e <= |s| && Contains(s[e..], part)
    ensures Contains(s, part)
  {
    var i :| 0 <= i <= |s[e..]| - |part| && OccursAt(s[e..], part, i);
    assert s[e + i..e + i + |part|] == s[e..][i..i + |part|];
    assert OccursAt(s, part, e + i);
  }

  /** A string without placeholders is returned unchanged. */
  lemma NoPlaceholderUnchanged(s: string, vars: map<string, Value>)
    requires !HasPlaceholder(s)
    ensures Interpolate(s, vars) == s
  {
    NothingSubstituted(s, vars);
  }

  /** Placeholders whose keys are missing or have empty values are left as they are. */
  lemma BlankValuesUnchanged(s: string, vars: map<string, Value>)
    requires forall k :: k in vars ==> ValueText(vars[k]) == []
    ensures Interpolate(s, vars) == s
  {
    NothingSubstituted(s, vars);
  }

  /** Text without `{` is copied as it is, and interpolation carries on after it. */
  lemma {:induction false} PlainThenRest(p: string, t: string, vars: map<string, Value>)
    requires '{' !in p
    ensures Interpolate(p + t, vars) == p + Interpolate(t, vars)
  {
    if p != [] {
      var s := p + t;
      assert s[0] == p[0] && s[1..] == p[1..] + t;
      assert p[0] in p;
      BraceStartsPlaceholder(s);
      CharThenRest(s, vars);
      PlainThenRest(p[1..], t, vars);
      assert [p[0]] + p[1..] == p;
    } else {
      assert p + t == t;
    }
  }

  /** `interpolate("Week {{number}}", { number: 5 })` is `"Week 5"`. */
  lemma WeekNumberExample()
    ensures Interpolate("Week {{number}}", map["number" := Number(5)]) == "Week 5"
  {
    var vars := map["number" := Number(5)];
    assert IsWord("number");
    assert "Week {{number}}" == "Week " + (Placeholder("number") + "");
    PlaceholderThenRest("number", "", vars);
    PlainThenRest("Week ", Placeholder("number") + "", vars);
    assert DigitChar(5) == '5';
    assert Replacement(vars, "number", Placeholder("number")) == "5";
  }

  /** The inserted text is not scanned again: a value that looks like a placeholder stays as it is. */
  lemma NotRescannedExample()
    ensures Interpolate("{{a}}", map["a" := Text("{{b}}"), "b" := Text("x")]) == "{{b}}"
  {
    var vars := map["a" := Text("{{b}}"), "b" := Text("x")];
    assert IsWord("a");
    PlaceholderThenRest("a", "", vars);
    assert Placeholder("a") + "" == "{{a}}";
  }

  // ---------------------------------------------------------------------------
  // pluralize

  /** The optional forms of `pluralize`. */
  datatype Forms = Forms(zero: Option<string>, one: Option<string>, other: Option<string>)

  /** A form that JavaScript treats as true: present and not the empty string. */
  predicate Truthy(f: Option<string>)
  {
    f.Some? && f.value != []
  }

  /** `pluralize(count, forms)`. */
  function Pluralize(count: int, forms: Forms): string
  {
    if count == 0 && Truthy(forms.zero) then forms.zero.value
    else if count == 1 && Truthy(forms.one) then forms.one.value
    else if Truthy(forms.other) then forms.other.value
    else if Truthy(forms.one) then forms.one.value
    else ""
  }

  /** The result is one of the non-empty forms given, or empty when none applies. */
  lemma PluralizeFromForms(count: int, forms: Forms)
    ensures var r := Pluralize(count, forms);
      || (Truthy(forms.zero) && r == forms.zero.value)
      || (Truthy(forms.one) && r == forms.one.value)
      || (Truthy(forms.other) && r == forms.other.value)
      || r == []
    ensures Pluralize(count, forms) == []
      <==> !Truthy(forms.other) && !Truthy(forms.one) && !(count == 0 && Truthy(forms.zero))
  {
  }

  /** A count of 0 takes the zero form, a count of 1 the one form, when these are not empty. */
  lemma PluralizeExact(count: int, forms: Forms)
    ensures count == 0 && Truthy(forms.zero) ==> Pluralize(count, forms) == forms.zero.value
    ensures count == 1 && Truthy(forms.one) ==> Pluralize(count, forms) == forms.one.value
  {
  }

  /** Every other count takes `other`, falling back to `one`, then to the empty string. */
  lemma PluralizeFallback(count: int, forms: Forms)
    requires !(count == 0 && Truthy(forms.zero)) && !(count == 1 && Truthy(forms.one))
    ensures Pluralize(count, forms)
      == if Truthy(forms.other) then forms.other.value else if Truthy(forms.one) then forms.one.value else ""
  {
  }
}
