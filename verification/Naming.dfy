/** Component names: hyphenated object names turned into CamelCase. Title casing comes from a text
    library; it is modelled on lower-case ASCII letters and digits. */
module Naming {

  predicate IsLower(c: char) { 'a' <= c <= 'z' }

  predicate IsUpper(c: char) { 'A' <= c <= 'Z' }

  predicate IsDigit(c: char) { '0' <= c <= '9' }

  function ToUpper(c: char): char {
    if IsLower(c) then c - 'a' + 'A' else c
  }

  function ToLower(c: char): char {
    if IsUpper(c) then c - 'A' + 'a' else c
  }

  function Lowered(s: string): string {
    seq(|s|, i requires 0 <= i < |s| => ToLower(s[i]))
  }

  /** Whether the text library capitalizes the first letter behind leading digits. The repository does
      not show it; everything proved here holds either way. */
  const TITLES_BEHIND_DIGITS: bool

  /** Title case of one word. */
  function Title(part: string): string {
    if part == "" then ""
    else if TITLES_BEHIND_DIGITS && IsDigit(part[0]) then [part[0]] + Title(part[1..])
    else [ToUpper(part[0])] + Lowered(part[1..])
  }

  // ---------------------------------------------------------------- split and join

  /** The parts between the hyphens, as strings.Split gives them: never an empty list. */
  function Split(s: string): (parts: seq<string>)
    ensures |parts| > 0
  {
    if s == "" then [""]
    else
      var rest := Split(s[1..]);
      if s[0] == '-' then [""] + rest else [[s[0]] + rest[0]] + rest[1..]
  }

  function Join(parts: seq<string>): string {
    if parts == [] then "" else parts[0] + Join(parts[1..])
  }

  /** Every part preceded by a hyphen. */
  function Hyphenated(parts: seq<string>): string {
    if parts == [] then "" else "-" + parts[0] + Hyphenated(parts[1..])
  }

  function Titles(parts: seq<string>): seq<string> {
    seq(|parts|, i requires 0 <= i < |parts| => Title(parts[i]))
  }

  function CamelCase(name: string): string {
    Join(Titles(Split(name)))
  }

  method JoinParts(parts: array<string>) returns (r: string)
    ensures r == Join(parts[..])
  {
    r := "";
    for i := 0 to parts.Length
      invariant r + Join(parts[i..]) == Join(parts[..])
    {
      assert parts[i..] == [parts[i]] + parts[i + 1..];
      assert r + Join(parts[i..]) == (r + parts[i]) + Join(parts[i + 1..]);
      r := r + parts[i];
    }
  }

  /** formatProviderName and formatFunctionName: every part is overwritten in place. */
  method FormatName(name: string) returns (r: string)
    ensures r == CamelCase(name)
  {
    var split := Split(name);
    var parts := new string[|split|](i requires 0 <= i < |split| => split[i]);
    assert parts[..] == split;
    for i := 0 to parts.Length
      invariant forall k | 0 <= k < i :: parts[k] == Title(split[k])
      invariant forall k | i <= k < parts.Length :: parts[k] == split[k]
    {
      parts[i] := Title(parts[i]);
    }
    assert parts[..] == Titles(split);
    r := JoinParts(parts);
  }

  /** formatSecretName and formatConfigMapName put a prefix in front of the parts. */
  method FormatPrefixedName(prefix: string, name: string) returns (r: string)
    ensures r == prefix + CamelCase(name)
  {
    var rest := FormatName(name);
    r := prefix + rest;
  }

  // ---------------------------------------------------------------- the inverse

  predicate WellFormedPart(part: string) {
    && part != ""
    && IsLower(part[0])
    && forall i | 0 <= i < |part| :: IsLower(part[i]) || IsDigit(part[i])
  }

  predicate WellFormedName(name: string) {
    forall i | 0 <= i < |Split(name)| :: WellFormedPart(Split(name)[i])
  }

  /** Reads a CamelCase string back, a hyphen before every capital. */
  function Uncapitalize(s: string): string {
    if s == "" then "" else Mark(s[0]) + Uncapitalize(s[1..])
  }

  function Mark(c: char): string {
    if IsUpper(c) then ['-', ToLower(c)] else [c]
  }

  function FromCamelCase(s: string): string {
    var r := Uncapitalize(s);
    if r == "" then "" else r[1..]
  }

  lemma Associate(a: string, b: string, c: string)
    ensures a + (b + c) == (a + b) + c
  {
  }

  lemma {:induction false} UncapitalizeConcat(s: string, t: string)
    ensures Uncapitalize(s + t) == Uncapitalize(s) + Uncapitalize(t)
  {
    hide Mark;
    if s == "" {
      assert s + t == t;
    } else {
      UncapitalizeConcat(s[1..], t);
      assert (s + t)[0] == s[0] && (s + t)[1..] == s[1..] + t;
      Associate(Mark(s[0]), Uncapitalize(s[1..]), Uncapitalize(t));
    }
  }

  lemma {:induction false} LoweredTail(s: string)
    requires forall i | 0 <= i < |s| :: IsLower(s[i]) || IsDigit(s[i])
    ensures Lowered(s) == s && Uncapitalize(s) == s
  {
    if s != "" {
      LoweredTail(s[1..]);
    }
  }

  lemma UncapitalizeTitle(part: string)
    requires WellFormedPart(part)
    ensures Uncapitalize(Title(part)) == "-" + part
  {
    hide Uncapitalize, ToUpper, Lowered, Mark;
    var c, rest := part[0], part[1..];
    assert forall i | 0 <= i < |rest| :: rest[i] == part[i + 1];
    LoweredTail(rest);
    UncapitalizeCons(ToUpper(c), rest);
    MarkCapital(c);
    assert ['-', c] + rest == "-" + part;
  }

  lemma MarkCapital(c: char)
    requires IsLower(c)
    ensures Mark(ToUpper(c)) == ['-', c]
  {
    assert IsUpper(ToUpper(c));
    assert ToLower(ToUpper(c)) == c;
  }

  lemma UncapitalizeCons(c: char, rest: string)
    ensures Uncapitalize([c] + rest) == Mark(c) + Uncapitalize(rest)
  {
    assert ([c] + rest)[1..] == rest;
  }

  lemma {:induction false} UncapitalizeTitles(parts: seq<string>)
    requires forall i | 0 <= i < |parts| :: WellFormedPart(parts[i])
    ensures Uncapitalize(Join(Titles(parts))) == Hyphenated(parts)
  {
    if parts != [] {
      UncapitalizeTitle(parts[0]);
      UncapitalizeTitles(parts[1..]);
      UncapitalizeConcat(Title(parts[0]), Join(Titles(parts[1..])));
      assert Titles(parts)[1..] == Titles(parts[1..]);
    }
  }

  lemma HyphenatedCons(part: string, rest: seq<string>)
    ensures Hyphenated([part] + rest) == "-" + part + Hyphenated(rest)
  {
    assert ([part] + rest)[1..] == rest;
  }

  /** Joining what Split produced, hyphens in between, gives the name back. */
  lemma {:induction false} HyphenatedSplit(s: string)
    ensures Hyphenated(Split(s)) == "-" + s
  {
    if s == "" {
      HyphenatedCons("", []);
      assert [""] + [] == [""];
    } else {
      hide Hyphenated;
      HyphenatedSplit(s[1..]);
      var rest := Split(s[1..]);
      var h := Hyphenated(rest[1..]);
      HyphenatedCons(rest[0], rest[1..]);
      assert [rest[0]] + rest[1..] == rest;
      assert rest[0] + h == s[1..] by {
        Associate("-", rest[0], h);
        assert ("-" + (rest[0] + h))[1..] == rest[0] + h;
        assert ("-" + s[1..])[1..] == s[1..];
      }
      if s[0] == '-' {
        HyphenatedCons("", rest);
        assert "-" + "" + ("-" + s[1..]) == "-" + s;
      } else {
        HyphenatedCons([s[0]] + rest[0], rest[1..]);
        Associate([s[0]], rest[0], h);
        Associate("-", [s[0]] + rest[0], h);
        assert [s[0]] + s[1..] == s;
      }
    }
  }

  /** CamelCase is invertible on well-formed names. */
  lemma CamelCaseRoundTrip(name: string)
    requires WellFormedName(name)
    ensures FromCamelCase(CamelCase(name)) == name
  {
    UncapitalizeTitles(Split(name));
    HyphenatedSplit(name);
  }

  /** Hence distinct well-formed names never share a component name. */
  lemma CamelCaseInjective(a: string, b: string)
    requires WellFormedName(a) && WellFormedName(b)
    requires CamelCase(a) == CamelCase(b)
    ensures a == b
  {
    CamelCaseRoundTrip(a);
    CamelCaseRoundTrip(b);
  }

  // ---------------------------------------------------------------- when names collide

  /** A part without letters. */
  predicate LetterlessPart(part: string) {
    forall i | 0 <= i < |part| :: IsDigit(part[i])
  }

  predicate LabelPart(part: string) {
    forall i | 0 <= i < |part| :: IsLower(part[i]) || IsDigit(part[i])
  }

  /** The names of lower-case letters, digits and hyphens, which are all an object name can consist of
      besides dots. */
  predicate ModelledName(name: string) {
    forall i | 0 <= i < |name| :: IsLower(name[i]) || IsDigit(name[i]) || name[i] == '-'
  }

  /** Every hyphen moved to the letter it capitalizes; hyphens that capitalize nothing are dropped.
      `pending` says that the next letter is to be capitalized. */
  function Moved(s: string, pending: bool): string {
    if s == "" then ""
    else if s[0] == '-' then Moved(s[1..], true)
    else if pending && IsLower(s[0]) then ['-', s[0]] + Moved(s[1..], false)
    else [s[0]] + Moved(s[1..], pending && TITLES_BEHIND_DIGITS && IsDigit(s[0]))
  }

  function Merged(name: string): string {
    Moved(name, true)
  }

  /** In front of a hyphen, or at the end, it does not matter what was pending. */
  lemma MovedForgets(s: string, p: bool, q: bool)
    requires s == "" || s[0] == '-'
    ensures Moved(s, p) == Moved(s, q)
  {
  }

  lemma {:induction false} MovedWord(word: string, s: string)
    requires LabelPart(word) && (s == "" || s[0] == '-')
    ensures Moved(word + s, false) == word + Moved(s, true)
  {
    if word == "" {
      assert word + s == s;
      MovedForgets(s, false, true);
    } else {
      assert (word + s)[0] == word[0] && (word + s)[1..] == word[1..] + s;
      MovedWord(word[1..], s);
      Associate([word[0]], word[1..], Moved(s, true));
      assert word == [word[0]] + word[1..];
    }
  }

  /** One part: reading its title back gives the part with its hyphen moved. */
  lemma {:induction false} MovedPart(part: string, s: string)
    requires LabelPart(part) && (s == "" || s[0] == '-')
    ensures Moved(part + s, true) == Uncapitalize(Title(part)) + Moved(s, true)
  {
    if part == "" {
      assert part + s == s;
      assert Uncapitalize("") + Moved(s, true) == Moved(s, true);
    } else {
      var c, rest := part[0], part[1..];
      assert (part + s)[0] == c && (part + s)[1..] == rest + s;
      LoweredTail(rest);
      if TITLES_BEHIND_DIGITS && IsDigit(c) {
        MovedPart(rest, s);
        UncapitalizeCons(c, Title(rest));
        Associate([c], Uncapitalize(Title(rest)), Moved(s, true));
      } else {
        MovedWord(rest, s);
        UncapitalizeCons(ToUpper(c), rest);
        if IsLower(c) {
          MarkCapital(c);
        }
        Associate(Mark(ToUpper(c)), rest, Moved(s, true));
      }
    }
  }

  lemma {:induction false} UncapitalizeParts(parts: seq<string>)
    requires forall i | 0 <= i < |parts| :: LabelPart(parts[i])
    ensures Uncapitalize(Join(Titles(parts))) == Moved(Hyphenated(parts), true)
  {
    hide LabelPart, Title;
    if parts != [] {
      var part, rest := parts[0], parts[1..];
      UncapitalizeParts(rest);
      UncapitalizeConcat(Title(part), Join(Titles(rest)));
      assert Titles(parts)[1..] == Titles(rest);
      MovedPart(part, Hyphenated(rest));
      assert ("-" + part + Hyphenated(rest))[1..] == part + Hyphenated(rest);
    }
  }

  predicate IsAlphanumeric(c: char) {
    IsLower(c) || IsUpper(c) || IsDigit(c)
  }

  lemma {:induction false} TitleAlphanumeric(part: string)
    requires LabelPart(part)
    ensures forall i | 0 <= i < |Title(part)| :: IsAlphanumeric(Title(part)[i])
  {
    if part != "" {
      assert forall i | 0 <= i < |part[1..]| :: part[1..][i] == part[i + 1];
      TitleAlphanumeric(part[1..]);
    }
  }

  lemma {:induction false} JoinAlphanumeric(parts: seq<string>)
    requires forall i | 0 <= i < |parts| :: LabelPart(parts[i])
    ensures forall i | 0 <= i < |Join(Titles(parts))| :: IsAlphanumeric(Join(Titles(parts))[i])
  {
    hide LabelPart, Title, IsAlphanumeric;
    if parts != [] {
      TitleAlphanumeric(parts[0]);
      JoinAlphanumeric(parts[1..]);
      assert Titles(parts)[1..] == Titles(parts[1..]);
    }
  }

  lemma {:induction false} SplitLabels(name: string)
    requires ModelledName(name)
    ensures forall i | 0 <= i < |Split(name)| :: LabelPart(Split(name)[i])
  {
    if name != "" {
      SplitLabels(name[1..]);
    }
  }

  /** Reading back loses nothing of an alphanumeric string. */
  lemma {:induction false} UncapitalizeInjective(s: string, t: string)
    requires forall i | 0 <= i < |s| :: IsAlphanumeric(s[i])
    requires forall i | 0 <= i < |t| :: IsAlphanumeric(t[i])
    requires Uncapitalize(s) == Uncapitalize(t)
    ensures s == t
  {
    if s == "" || t == "" {
      assert s == t;
    } else {
      var u := Uncapitalize(s);
      assert u[0] == Mark(s[0])[0] == Mark(t[0])[0];
      assert IsUpper(s[0]) <==> IsUpper(t[0]);
      var n := |Mark(s[0])|;
      assert n == |Mark(t[0])| && u[..n] == Mark(s[0]) == Mark(t[0]);
      assert n == 2 ==> Mark(s[0])[1] == ToLower(s[0]) && Mark(t[0])[1] == ToLower(t[0]);
      assert s[0] == t[0];
      assert u[n..] == Uncapitalize(s[1..]) == Uncapitalize(t[1..]);
      UncapitalizeInjective(s[1..], t[1..]);
      assert s == [s[0]] + s[1..] && t == [t[0]] + t[1..];
    }
  }

  lemma UncapitalizeMerges(name: string)
    requires ModelledName(name)
    ensures Uncapitalize(CamelCase(name)) == Merged(name)
  {
    SplitLabels(name);
    UncapitalizeParts(Split(name));
    HyphenatedSplit(name);
    assert ("-" + name)[1..] == name;
  }

  /** Exactly which names share a component name. */
  lemma CollideExactly(a: string, b: string)
    requires ModelledName(a) && ModelledName(b)
    ensures CamelCase(a) == CamelCase(b) <==> Merged(a) == Merged(b)
  {
    UncapitalizeMerges(a);
    UncapitalizeMerges(b);
    if Merged(a) == Merged(b) {
      SplitLabels(a);
      SplitLabels(b);
      JoinAlphanumeric(Split(a));
      JoinAlphanumeric(Split(b));
      UncapitalizeInjective(CamelCase(a), CamelCase(b));
    }
  }

  /** Behind this name the next letter is still to be capitalized: its last part is empty, or made of
      digits if letters behind digits are capitalized. */
  predicate EndsOpen(name: string, pending: bool) {
    if name == "" then pending
    else if name[0] == '-' then EndsOpen(name[1..], true)
    else EndsOpen(name[1..], pending && TITLES_BEHIND_DIGITS && IsDigit(name[0]))
  }

  /** The name's first part has a letter to capitalize. */
  predicate StartsWithTitle(name: string) {
    name != "" && (IsLower(name[0]) || (TITLES_BEHIND_DIGITS && IsDigit(name[0]) && StartsWithTitle(name[1..])))
  }

  lemma {:induction false} MovedConcat(a: string, b: string, pending: bool)
    ensures Moved(a + b, pending) == Moved(a, pending) + Moved(b, EndsOpen(a, pending))
  {
    if a == "" {
      assert a + b == b;
      assert Moved("", pending) + Moved(b, pending) == Moved(b, pending);
    } else {
      assert (a + b)[0] == a[0] && (a + b)[1..] == a[1..] + b;
      var c := a[0];
      if c == '-' {
        MovedConcat(a[1..], b, true);
      } else if pending && IsLower(c) {
        MovedConcat(a[1..], b, false);
        Associate(['-', c], Moved(a[1..], false), Moved(b, EndsOpen(a[1..], false)));
      } else {
        var still := pending && TITLES_BEHIND_DIGITS && IsDigit(c);
        MovedConcat(a[1..], b, still);
        Associate([c], Moved(a[1..], still), Moved(b, EndsOpen(a[1..], still)));
      }
    }
  }

  lemma {:induction false} PendingMatters(b: string)
    requires ModelledName(b)
    ensures Moved(b, true) == Moved(b, false) <==> !StartsWithTitle(b)
  {
    if b != "" {
      var t, f := Moved(b, true), Moved(b, false);
      if IsLower(b[0]) {
        assert t[0] == '-' && f[0] == b[0];
      } else if b[0] != '-' && TITLES_BEHIND_DIGITS {
        PendingMatters(b[1..]);
        assert t[1..] == Moved(b[1..], true) && f[1..] == Moved(b[1..], false);
      }
    }
  }

  /** Leaving one hyphen out keeps the component name exactly when the part behind it has no letter to
      capitalize, or the letter is capitalized without the hyphen as well. */
  lemma HyphenIsLostExactly(a: string, b: string)
    requires ModelledName(a) && ModelledName(b)
    ensures CamelCase(a + "-" + b) == CamelCase(a + b) <==> !StartsWithTitle(b) || EndsOpen(a, true)
  {
    CollideExactly(a + "-" + b, a + b);
    assert a + "-" + b == a + ("-" + b);
    MovedConcat(a, "-" + b, true);
    MovedConcat(a, b, true);
    assert ("-" + b)[1..] == b;
    PendingMatters(b);
    var init := Moved(a, true);
    assert (init + Moved(b, true))[|init|..] == Moved(b, true);
    assert (init + Moved(b, false))[|init|..] == Moved(b, false);
  }

  lemma CamelCaseHyphen(a: string, b: string)
    ensures CamelCase(a + "-" + b) == CamelCase(a) + CamelCase(b)
  {
    SplitHyphen(a, b);
    JoinTitlesConcat(Split(a), Split(b));
  }

  /** A part without letters loses its hyphen, whatever stands in front of it and behind it. */
  lemma LetterlessPartsCollide(a: string, part: string, b: string)
    requires LetterlessPart(part)
    ensures a + "-" + part != a + part && a + "-" + part + "-" + b != a + part + "-" + b
    ensures CamelCase(a + "-" + part) == CamelCase(a + part)
    ensures CamelCase(a + "-" + part + "-" + b) == CamelCase(a + part + "-" + b)
  {
    assert |a + "-" + part| != |a + part|;
    assert |a + "-" + part + "-" + b| != |a + part + "-" + b|;
    LetterlessTailCollides(a, part);
    CamelCaseHyphen(a + "-" + part, b);
    CamelCaseHyphen(a + part, b);
  }

  lemma LetterlessTailCollides(a: string, part: string)
    requires LetterlessPart(part)
    ensures CamelCase(a + "-" + part) == CamelCase(a + part)
  {
    hide Join, Titles, Title, Split;
    var parts := Split(a);
    var init, last := parts[..|parts| - 1], parts[|parts| - 1];
    assert '-' !in part;
    SplitHyphen(a, part);
    SplitWord(part);
    SplitAppend(a, part);
    assert parts + [part] == init + ([last] + [part]) by {
      assert parts == init + [last];
    }
    JoinTitlesConcat(init, [last] + [part]);
    JoinTitlesConcat([last], [part]);
    JoinTitlesConcat(init, [last + part]);
    JoinTitlesOne(last);
    JoinTitlesOne(part);
    JoinTitlesOne(last + part);
    TitleDigits(last, part);
    TitleOnlyDigits(part);
  }

  lemma {:induction false} TitleDigits(word: string, digits: string)
    requires LetterlessPart(digits)
    ensures Title(word + digits) == Title(word) + digits
  {
    if word == "" {
      assert word + digits == digits;
      TitleOnlyDigits(digits);
    } else {
      assert (word + digits)[0] == word[0] && (word + digits)[1..] == word[1..] + digits;
      if TITLES_BEHIND_DIGITS && IsDigit(word[0]) {
        TitleDigits(word[1..], digits);
        Associate([word[0]], Title(word[1..]), digits);
      } else {
        LoweredTail(digits);
        assert Lowered(word[1..] + digits) == Lowered(word[1..]) + Lowered(digits);
        Associate([ToUpper(word[0])], Lowered(word[1..]), digits);
      }
    }
  }

  lemma {:induction false} TitleOnlyDigits(digits: string)
    requires LetterlessPart(digits)
    ensures Title(digits) == digits
  {
    if digits != "" {
      assert forall i | 0 <= i < |digits[1..]| :: digits[1..][i] == digits[i + 1];
      TitleOnlyDigits(digits[1..]);
      LoweredTail(digits[1..]);
      assert digits == [digits[0]] + digits[1..];
    }
  }

  lemma JoinTitlesOne(part: string)
    ensures Join(Titles([part])) == Title(part)
  {
    assert Titles([part]) == [Title(part)];
    assert [Title(part)][1..] == [];
  }

  lemma {:induction false} JoinConcat(a: seq<string>, b: seq<string>)
    ensures Join(a + b) == Join(a) + Join(b)
  {
    if a == [] {
      assert a + b == b;
    } else {
      JoinConcat(a[1..], b);
      assert (a + b)[1..] == a[1..] + b;
      Associate(a[0], Join(a[1..]), Join(b));
    }
  }

  lemma JoinTitlesConcat(a: seq<string>, b: seq<string>)
    ensures Join(Titles(a + b)) == Join(Titles(a)) + Join(Titles(b))
  {
    hide Join, Title;
    assert Titles(a + b) == Titles(a) + Titles(b);
    JoinConcat(Titles(a), Titles(b));
  }

  lemma {:induction false} SplitWord(s: string)
    requires '-' !in s
    ensures Split(s) == [s]
  {
    if s != "" {
      SplitWord(s[1..]);
      assert [s[0]] + s[1..] == s;
    }
  }

  /** Split, one character at a time. */
  function Prepend(c: char, rest: seq<string>): seq<string>
    requires |rest| > 0
  {
    if c == '-' then [""] + rest else [[c] + rest[0]] + rest[1..]
  }

  lemma SplitCons(c: char, s: string)
    ensures Split([c] + s) == Prepend(c, Split(s))
  {
    assert ([c] + s)[1..] == s;
  }

  lemma PrependConcat(c: char, rest: seq<string>, more: seq<string>)
    requires |rest| > 0
    ensures Prepend(c, rest + more) == Prepend(c, rest) + more
  {
    assert (rest + more)[1..] == rest[1..] + more;
  }

  lemma {:induction false} SplitHyphen(a: string, b: string)
    ensures Split(a + "-" + b) == Split(a) + Split(b)
  {
    if a == "" {
      SplitCons('-', b);
      assert a + "-" + b == ['-'] + b;
    } else {
      hide Split, Prepend;
      SplitHyphen(a[1..], b);
      SplitCons(a[0], a[1..] + "-" + b);
      SplitCons(a[0], a[1..]);
      assert a == [a[0]] + a[1..];
      assert a + "-" + b == [a[0]] + (a[1..] + "-" + b);
      PrependConcat(a[0], Split(a[1..]), Split(b));
    }
  }

  function AppendToLast(parts: seq<string>, b: string): (r: seq<string>)
    requires |parts| > 0
    ensures |r| == |parts|
  {
    parts[..|parts| - 1] + [parts[|parts| - 1] + b]
  }

  lemma PrependAppend(c: char, rest: seq<string>, b: string)
    requires |rest| > 0
    ensures Prepend(c, AppendToLast(rest, b)) == AppendToLast(Prepend(c, rest), b)
  {
    Associate([c], rest[0], b);
    var r := Prepend(c, rest);
    if c == '-' {
      assert r[..|r| - 1] == [""] + rest[..|rest| - 1];
    } else if |rest| > 1 {
      assert r[..|r| - 1] == [[c] + rest[0]] + rest[1..|rest| - 1];
      assert AppendToLast(rest, b)[1..] == rest[1..|rest| - 1] + [rest[|rest| - 1] + b];
    }
  }

  lemma {:induction false} SplitAppend(a: string, b: string)
    requires '-' !in b
    ensures Split(a + b) == AppendToLast(Split(a), b)
  {
    if a == "" {
      assert a + b == b;
      SplitWord(b);
    } else {
      hide Split, Prepend, AppendToLast;
      SplitAppend(a[1..], b);
      SplitCons(a[0], a[1..] + b);
      SplitCons(a[0], a[1..]);
      assert a == [a[0]] + a[1..];
      assert a + b == [a[0]] + (a[1..] + b);
      PrependAppend(a[0], Split(a[1..]), b);
    }
  }
}
