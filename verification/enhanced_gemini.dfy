/** The post-processing of the second LLM adapter: dates normalised to
    "Mon YYYY" and durations rewritten date by date. The four date regexes
    are written out as scanners with Python's leftmost-match,
    first-pattern-wins behaviour. */
module EnhancedGemini {
  import opened Wrappers
  import opened Text
  import opened Enrichment

  // ---------------------------------------------------------------------
  // The month table
  // ---------------------------------------------------------------------

  const MonthNames: seq<string> := ["january", "february", "march", "april", "may", "june",
    "july", "august", "september", "october", "november", "december"]

  const MonthAbbrevs: seq<string> := ["Jan", "Feb", "Mar", "Apr", "May", "Jun",
    "Jul", "Aug", "Sep", "Oct", "Nov", "Dec"]

  /** The index of `name` among the full month names. */
  function NameIndex(name: string, k: nat): (r: Option<nat>)
    requires k <= 12
    ensures r.Some? ==> k <= r.value < 12 && MonthNames[r.value] == name
    ensures r.None? ==> forall j :: k <= j < 12 ==> MonthNames[j] != name
    decreases 12 - k
  {
    if k == 12 then None
    else if MonthNames[k] == name then Some(k)
    else NameIndex(name, k + 1)
  }

  /** The month (1 to 12) a lower-cased key of the table stands for: the
      numbers "1".."12" with or without a leading zero, or a full name. */
  function MonthNumber(key: string): (r: Option<nat>)
    ensures r.Some? ==> 1 <= r.value <= 12
  {
    if IsDigits(key) && |key| <= 2 && 1 <= DigitsValue(key) <= 12 then Some(DigitsValue(key))
    else match NameIndex(key, 0)
      case Some(k) => Some(k + 1)
      case None => None
  }

  /** `months.get(g.lower(), months.get(g, g))`: the abbreviation for a
      known month token, the token itself otherwise. */
  function MonthLookup(g: string): (r: string)
    ensures MonthNumber(Lower(g)).Some? ==> r == MonthAbbrevs[MonthNumber(Lower(g)).value - 1]
    ensures MonthNumber(Lower(g)).None? ==> r == g
  {
    match MonthNumber(Lower(g))
    case Some(n) => MonthAbbrevs[n - 1]
    case None => g
  }

  // ---------------------------------------------------------------------
  // The four date patterns
  // ---------------------------------------------------------------------

  /** `(\d{1,2})[/-](\d{4})`, `(\d{4})[/-](\d{1,2})`,
      `([a-zA-Z]+)\s+(\d{4})` and `(\d{4})\s+([a-zA-Z]+)`. */
  datatype DatePattern = NumberSepYear | YearSepNumber | WordSpaceYear | YearSpaceWord

  predicate IsDateSep(c: char) {
    c == '/' || c == '-'
  }

  /** `n` digits start at `i`. */
  predicate DigitsAt(s: string, i: nat, n: nat) {
    i + n <= |s| && forall j :: i <= j < i + n ==> IsDigit(s[j])
  }

  /** `(\d{1,2})[/-](\d{4})` at `i`: a two-digit first number gives way
      to a one-digit one when the longer one does not match. */
  function MatchNumberSepYear(s: string, i: nat): Option<(string, string)> {
    if DigitsAt(s, i, 2) && i + 2 < |s| && IsDateSep(s[i + 2]) && DigitsAt(s, i + 3, 4) then
      Some((s[i..i + 2], s[i + 3..i + 7]))
    else if DigitsAt(s, i, 1) && i + 1 < |s| && IsDateSep(s[i + 1]) && DigitsAt(s, i + 2, 4) then
      Some((s[i..i + 1], s[i + 2..i + 6]))
    else None
  }

  /** `(\d{4})[/-](\d{1,2})` at `i`, the second number as long as it can be. */
  function MatchYearSepNumber(s: string, i: nat): Option<(string, string)> {
    if DigitsAt(s, i, 4) && i + 4 < |s| && IsDateSep(s[i + 4]) then
      if DigitsAt(s, i + 5, 2) then Some((s[i..i + 4], s[i + 5..i + 7]))
      else if DigitsAt(s, i + 5, 1) then Some((s[i..i + 4], s[i + 5..i + 6]))
      else None
    else None
  }

  /** `([a-zA-Z]+)\s+(\d{4})` at `i`: both runs are taken whole, since a
      shorter one could not be followed by what the pattern needs next. */
  function MatchWordSpaceYear(s: string, i: nat): Option<(string, string)>
    requires i <= |s|
  {
    var l := LetterRun(s, i);
    if l == 0 then None
    else
      var w := SpaceRun(s, i + l);
      if w > 0 && DigitsAt(s, i + l + w, 4) then Some((s[i..i + l], s[i + l + w..i + l + w + 4]))
      else None
  }

  /** `(\d{4})\s+([a-zA-Z]+)` at `i`. */
  function MatchYearSpaceWord(s: string, i: nat): Option<(string, string)>
    requires i <= |s|
  {
    if DigitsAt(s, i, 4) then
      var w := SpaceRun(s, i + 4);
      var l := LetterRun(s, i + 4 + w);
      if w > 0 && l > 0 then Some((s[i..i + 4], s[i + 4 + w..i + 4 + w + l]))
      else None
    else None
  }

  /** The two groups when `p` matches at `i`. */
  function MatchAt(p: DatePattern, s: string, i: nat): Option<(string, string)>
    requires i <= |s|
  {
    match p
    case NumberSepYear => MatchNumberSepYear(s, i)
    case YearSepNumber => MatchYearSepNumber(s, i)
    case WordSpaceYear => MatchWordSpaceYear(s, i)
    case YearSpaceWord => MatchYearSpaceWord(s, i)
  }

  /** `re.search`: the match at the leftmost position from `from` on. */
  function Search(p: DatePattern, s: string, from: nat): (r: Option<(string, string)>)
    requires from <= |s|
    ensures r.None? <==> forall i :: from <= i <= |s| ==> MatchAt(p, s, i).None?
    ensures r.Some? ==> exists i :: from <= i <= |s| && MatchAt(p, s, i) == r
    decreases |s| - from
  {
    var here := MatchAt(p, s, from);
    if here.Some? then here
    else if from == |s| then None
    else Search(p, s, from + 1)
  }

  /** The groups of the first pattern, in table order, that matches
      anywhere in `s`. */
  function FirstDateMatch(s: string): (r: Option<(string, string)>)
    ensures r.None? <==> (Search(NumberSepYear, s, 0).None? && Search(YearSepNumber, s, 0).None?
      && Search(WordSpaceYear, s, 0).None? && Search(YearSpaceWord, s, 0).None?)
  {
    var m1 := Search(NumberSepYear, s, 0);
    var m2 := Search(YearSepNumber, s, 0);
    var m3 := Search(WordSpaceYear, s, 0);
    if m1.Some? then m1
    else if m2.Some? then m2
    else if m3.Some? then m3
    else Search(YearSpaceWord, s, 0)
  }

  /** `g.isdigit() and int(g) > 12`: the group reads as a year. */
  predicate YearLike(g: string) {
    IsDigits(g) && DigitsValue(g) > 12
  }

  /** Which group is the month and which the year. */
  function MonthYear(g1: string, g2: string): (r: string)
    ensures YearLike(g1) ==> r == MonthLookup(g2) + " " + g1
    ensures !YearLike(g1) ==> r == MonthLookup(g1) + " " + g2
  {
    if YearLike(g1) then MonthLookup(g2) + " " + g1
    else if YearLike(g2) then MonthLookup(g1) + " " + g2
    else MonthLookup(g1) + " " + g2
  }

  /** `format_date`. */
  function FormatDate(date: string): (r: string)
    ensures date == "" || Lower(date) == "present" ==> r == "Present"
    ensures date != "" && Lower(date) != "present" && FirstDateMatch(date).None? ==> r == date
  {
    if date == "" || Lower(date) == "present" then "Present"
    else match FirstDateMatch(date)
      case Some((g1, g2)) => MonthYear(g1, g2)
      case None => date
  }

  // ---------------------------------------------------------------------
  // Durations
  // ---------------------------------------------------------------------

  /** A duration rewritten only when splitting it on '-' gives exactly two
      parts; each part is stripped and formatted. */
  function FormatDuration(duration: string): (r: string)
    ensures |Split(duration, {'-'})| != 2 ==> r == duration
  {
    var parts := Split(duration, {'-'});
    if |parts| == 2 then FormatDate(Trim(parts[0])) + " - " + FormatDate(Trim(parts[1]))
    else duration
  }

  function RewriteExperience(e: DetailedExperience): (r: DetailedExperience)
    ensures r.duration.Some? <==> e.duration.Some?
    ensures e.duration.Some? ==> r.duration.value == FormatDuration(e.duration.value)
    ensures r == e.(duration := r.duration)
  {
    match e.duration
    case Some(d) => e.(duration := Some(FormatDuration(d)))
    case None => e
  }

  function RewriteProject(p: NotableProject): (r: NotableProject)
    ensures r.duration.Some? <==> p.duration.Some?
    ensures p.duration.Some? ==> r.duration.value == FormatDuration(p.duration.value)
    ensures r == p.(duration := r.duration)
  {
    match p.duration
    case Some(d) => p.(duration := Some(FormatDuration(d)))
    case None => p
  }

  /** The reply's durations rewritten in both lists and a missing
      `attempt_count` set to 1 (one that is `null` stays `null`); nothing
      else changes. */
  function PostProcess(data: EnrichmentData): (r: EnrichmentData)
    ensures |r.detailedExperience| == |data.detailedExperience|
    ensures forall i :: 0 <= i < |data.detailedExperience| ==>
      r.detailedExperience[i] == RewriteExperience(data.detailedExperience[i])
    ensures |r.otherNotableProjects| == |data.otherNotableProjects|
    ensures forall i :: 0 <= i < |data.otherNotableProjects| ==>
      r.otherNotableProjects[i] == RewriteProject(data.otherNotableProjects[i])
    ensures r.summaryBullets == data.summaryBullets && r.education == data.education
    ensures r.certifications == data.certifications
    ensures !r.attemptCount.Missing?
    ensures data.attemptCount.Missing? ==> r.attemptCount == Value(1)
    ensures !data.attemptCount.Missing? ==> r.attemptCount == data.attemptCount
  {
    var exps := data.detailedExperience;
    var projects := data.otherNotableProjects;
    data.(
      detailedExperience := seq(|exps|, i requires 0 <= i < |exps| => RewriteExperience(exps[i])),
      otherNotableProjects := seq(|projects|, i requires 0 <= i < |projects| => RewriteProject(projects[i])),
      attemptCount := if data.attemptCount.Missing? then Value(1) else data.attemptCount)
  }

  // ---------------------------------------------------------------------
  // Properties of format_date
  // ---------------------------------------------------------------------

  /** A numeric month from 1 to 12, with or without a leading zero. */
  predicate NumericMonth(m: string) {
    IsDigits(m) && |m| <= 2 && 1 <= DigitsValue(m) <= 12
  }

  /** A string of four digits. */
  predicate FourDigits(y: string) {
    |y| == 4 && IsDigits(y)
  }

  /** Lower-casing leaves digits alone. */
  lemma LowerDigits(m: string)
    requires IsDigits(m)
    ensures Lower(m) == m
  {
  }

  /** A numeric month is looked up as its abbreviation. */
  lemma NumericMonthLookup(m: string)
    requires NumericMonth(m)
    ensures MonthLookup(m) == MonthAbbrevs[DigitsValue(m) - 1]
  {
    LowerDigits(m);
  }

  /** A pattern that matches at the start is the one `Search` reports. */
  lemma SearchAtStart(p: DatePattern, s: string)
    requires MatchAt(p, s, 0).Some?
    ensures Search(p, s, 0) == MatchAt(p, s, 0)
  {
  }

  /** "MM/YYYY" and "MM-YYYY" become "Mon YYYY". */
  lemma MonthSlashYear(m: string, sep: char, y: string)
    requires NumericMonth(m) && IsDateSep(sep) && FourDigits(y)
    ensures FormatDate(m + [sep] + y) == MonthAbbrevs[DigitsValue(m) - 1] + " " + y
  {
    var s := m + [sep] + y;
    assert Lower(s) != "present" by {
      assert Lower(s)[0] == s[0] == m[0];
    }
    assert MatchNumberSepYear(s, 0) == Some((m, y)) by {
      if |m| == 2 {
        assert s[0..2] == m && s[3..7] == y;
      } else {
        assert !IsDigit(s[1]);
        assert s[0..1] == m && s[2..6] == y;
      }
    }
    SearchAtStart(NumberSepYear, s);
    assert FirstDateMatch(s) == Some((m, y));
    NumericMonthLookup(m);
  }

  /** In "YYYY/MM" no number precedes a separator that four digits follow. */
  lemma YearFirstNotNumberFirst(y: string, sep: char, m: string)
    requires FourDigits(y) && IsDateSep(sep) && NumericMonth(m)
    ensures Search(NumberSepYear, y + [sep] + m, 0).None?
  {
    var s := y + [sep] + m;
    forall i | 0 <= i <= |s|
      ensures MatchNumberSepYear(s, i).None?
    {
      if i + 6 <= |s| {
        assert !DigitsAt(s, i + 2, 4) by {
          assert i + 2 <= 4 < i + 6 && !IsDigit(s[4]);
        }
      }
      if i + 7 <= |s| {
        assert !DigitsAt(s, i + 3, 4) by {
          assert i + 3 <= 4 < i + 7 && !IsDigit(s[4]);
        }
      }
    }
    assert forall i :: 0 <= i <= |s| ==> MatchAt(NumberSepYear, s, i).None?;
  }

  /** "YYYY/MM" is matched by the second pattern, year first. */
  lemma YearSepMatch(y: string, sep: char, m: string)
    requires FourDigits(y) && IsDateSep(sep) && NumericMonth(m)
    ensures FirstDateMatch(y + [sep] + m) == Some((y, m))
  {
    var s := y + [sep] + m;
    YearFirstNotNumberFirst(y, sep, m);
    assert MatchYearSepNumber(s, 0) == Some((y, m)) by {
      assert s[0..4] == y;
      if |m| == 2 {
        assert s[5..7] == m;
      } else {
        assert s[5..6] == m;
      }
    }
    SearchAtStart(YearSepNumber, s);
  }

  /** "YYYY/MM" and "YYYY-MM" become "Mon YYYY" when the year is above 12. */
  lemma YearSlashMonth(y: string, sep: char, m: string)
    requires FourDigits(y) && DigitsValue(y) > 12 && IsDateSep(sep) && NumericMonth(m)
    ensures FormatDate(y + [sep] + m) == MonthAbbrevs[DigitsValue(m) - 1] + " " + y
  {
    var s := y + [sep] + m;
    assert Lower(s) != "present" by {
      assert Lower(s)[0] == s[0] == y[0];
    }
    YearSepMatch(y, sep, m);
    NumericMonthLookup(m);
  }

  /** No pattern matches a string without digits. */
  lemma NoDigitNoMatch(s: string)
    requires !HasDigit(s)
    ensures FirstDateMatch(s).None?
  {
    forall i | 0 <= i <= |s|
      ensures MatchWordSpaceYear(s, i).None?
    {
      var l := LetterRun(s, i);
      if l > 0 {
        var w := SpaceRun(s, i + l);
        assert !DigitsAt(s, i + l + w, 4) by {
          if i + l + w + 4 <= |s| {
            assert !IsDigit(s[i + l + w]);
          }
        }
      }
    }
    forall i | 0 <= i <= |s|
      ensures MatchNumberSepYear(s, i).None? && MatchYearSepNumber(s, i).None? && MatchYearSpaceWord(s, i).None?
    {
      if i < |s| {
        assert !IsDigit(s[i]);
      }
    }
  }

  /** A date without digits is returned unchanged. */
  lemma NoDigitUnchanged(s: string)
    requires !HasDigit(s) && s != "" && Lower(s) != "present"
    ensures FormatDate(s) == s
  {
    NoDigitNoMatch(s);
  }

  /** Neither numeric pattern matches a string without a date separator. */
  lemma NoSepNoNumericMatch(s: string)
    requires forall j :: 0 <= j < |s| ==> !IsDateSep(s[j])
    ensures Search(NumberSepYear, s, 0).None? && Search(YearSepNumber, s, 0).None?
  {
    assert forall i :: 0 <= i <= |s| ==> MatchNumberSepYear(s, i).None?;
    assert forall i :: 0 <= i <= |s| ==> MatchYearSepNumber(s, i).None?;
  }

  /** The full month names are distinct. */
  lemma MonthNamesDistinct(k: nat)
    requires k < 12
    ensures NameIndex(MonthNames[k], 0) == Some(k)
  {
    var r := NameIndex(MonthNames[k], 0);
    assert r.Some?;
    assert MonthNames[r.value] == MonthNames[k];
  }

  /** A word followed by one space and four digits is matched by the word
      pattern, with the word and the year as groups. */
  lemma WordYearMatch(word: string, y: string)
    requires IsAlpha(word) && FourDigits(y)
    ensures FirstDateMatch(word + " " + y) == Some((word, y))
  {
    var s := word + " " + y;
    assert forall j :: 0 <= j < |s| ==> !IsDateSep(s[j]) by {
      forall j | 0 <= j < |s|
        ensures !IsDateSep(s[j])
      {
        if j < |word| {
          assert s[j] == word[j];
        } else if j > |word| {
          assert s[j] == y[j - |word| - 1];
        }
      }
    }
    NoSepNoNumericMatch(s);
    var n := |word|;
    assert LetterRun(s, 0) == n by {
      LetterRunFull(s, 0, n);
    }
    assert SpaceRun(s, n) == 1 by {
      assert IsSpace(s[n]) && !IsSpace(s[n + 1]);
      assert SpaceRun(s, n + 1) == 0;
    }
    assert s[0..n] == word && s[n + 1..n + 5] == y;
    assert MatchWordSpaceYear(s, 0) == Some((word, y));
    SearchAtStart(WordSpaceYear, s);
  }

  /** The letter run from `i` reaches exactly `i + n` when the `n`
      characters from `i` are letters and the next is not. */
  lemma {:induction false} LetterRunFull(s: string, i: nat, n: nat)
    requires i + n <= |s|
    requires forall j :: i <= j < i + n ==> IsLetter(s[j])
    requires i + n < |s| ==> !IsLetter(s[i + n])
    ensures LetterRun(s, i) == n
    decreases n
  {
    if n > 0 {
      LetterRunFull(s, i + 1, n - 1);
    }
  }

  /** A word of letters is no number. */
  lemma WordNotDigits(word: string)
    requires IsAlpha(word)
    ensures !IsDigits(Lower(word)) && !YearLike(word)
  {
    assert !IsDigit(Lower(word)[0]);
    assert !IsDigit(word[0]);
  }

  /** "Month YYYY" with a full month name, in any case, becomes "Mon YYYY". */
  lemma FullMonthYear(name: string, y: string, k: nat)
    requires k < 12 && IsAlpha(name) && Lower(name) == MonthNames[k] && FourDigits(y)
    ensures FormatDate(name + " " + y) == MonthAbbrevs[k] + " " + y
  {
    var s := name + " " + y;
    assert Lower(s) != "present" by {
      assert Lower(s)[|s| - 1] == y[3];
    }
    WordYearMatch(name, y);
    MonthNamesDistinct(k);
    WordNotDigits(name);
    assert MonthLookup(name) == MonthAbbrevs[k];
  }

  /** Every abbreviation is looked up as itself: only "May" is also a full
      name, and it maps to itself. */
  lemma AbbrevLookup(k: nat)
    requires k < 12
    ensures MonthLookup(MonthAbbrevs[k]) == MonthAbbrevs[k]
  {
    var a := MonthAbbrevs[k];
    assert IsAlpha(a);
    WordNotDigits(a);
    if k == 4 {
      assert Lower(a) == MonthNames[4];
      MonthNamesDistinct(4);
    } else {
      assert |Lower(a)| == 3 && Lower(a) != MonthNames[4];
      assert forall j :: 0 <= j < 12 && j != 4 ==> |MonthNames[j]| != 3;
      assert NameIndex(Lower(a), 0).None?;
    }
  }

  /** A date already in "Mon YYYY" form is returned unchanged. */
  lemma AbbrevYearUnchanged(k: nat, y: string)
    requires k < 12 && FourDigits(y)
    ensures FormatDate(MonthAbbrevs[k] + " " + y) == MonthAbbrevs[k] + " " + y
  {
    var a := MonthAbbrevs[k];
    var s := a + " " + y;
    assert IsAlpha(a);
    assert Lower(s) != "present" by {
      assert Lower(s)[|s| - 1] == y[3];
    }
    WordYearMatch(a, y);
    WordNotDigits(a);
    AbbrevLookup(k);
  }

  /** Splitting "a - b" on '-' gives the two sides when neither contains
      a dash. */
  lemma SplitDuration(a: string, b: string)
    requires '-' !in a && '-' !in b
    ensures Split(a + " - " + b, {'-'}) == [a + " ", " " + b]
  {
    assert a + " - " + b == (a + " ") + ['-'] + (" " + b);
    SplitAtSeparator(a + " ", '-', " " + b);
    SplitNoSeparator(" " + b, '-');
  }

  /** "start - end" with dash-free dates is rewritten date by date. */
  lemma DurationRewritten(a: string, b: string)
    requires '-' !in a && '-' !in b
    ensures FormatDuration(a + " - " + b) == FormatDate(Trim(a + " ")) + " - " + FormatDate(Trim(" " + b))
  {
    SplitDuration(a, b);
  }

  /** A duration with more than one dash in a date is left untouched. */
  lemma DashedDateUntouched(a: string, b: string, c: string)
    requires '-' !in a && '-' !in b && '-' !in c
    ensures FormatDuration(a + "-" + b + "-" + c) == a + "-" + b + "-" + c
  {
    var s := a + "-" + b + "-" + c;
    assert s == a + ['-'] + (b + ['-'] + c);
    SplitAtSeparator(a, '-', b + ['-'] + c);
    SplitAtSeparator(b, '-', c);
    SplitNoSeparator(c, '-');
  }

  /** A duration of two dash-free, stripped dates that formatting leaves
      alone is itself left alone. */
  lemma StableDuration(a: string, b: string)
    requires '-' !in a && '-' !in b
    requires |a| > 0 && !IsSpace(a[0]) && !IsSpace(a[|a| - 1])
    requires |b| > 0 && !IsSpace(b[0]) && !IsSpace(b[|b| - 1])
    requires FormatDate(a) == a && FormatDate(b) == b
    ensures FormatDuration(a + " - " + b) == a + " - " + b
  {
    DurationRewritten(a, b);
    TrimPadding(a);
    TrimPadding(b);
  }

  /** Rewriting is idempotent on its own output for "Mon YYYY" dates. */
  lemma FormattedDurationStable(k1: nat, y1: string, k2: nat, y2: string)
    requires k1 < 12 && k2 < 12 && FourDigits(y1) && FourDigits(y2)
    ensures var d := MonthAbbrevs[k1] + " " + y1 + " - " + (MonthAbbrevs[k2] + " " + y2);
      FormatDuration(d) == d
  {
    var a := MonthAbbrevs[k1] + " " + y1;
    var b := MonthAbbrevs[k2] + " " + y2;
    assert '-' !in a && '-' !in b;
    assert |a| == 8 && !IsSpace(a[0]) && !IsSpace(a[7]);
    assert |b| == 8 && !IsSpace(b[0]) && !IsSpace(b[7]);
    AbbrevYearUnchanged(k1, y1);
    AbbrevYearUnchanged(k2, y2);
    StableDuration(a, b);
  }
}
