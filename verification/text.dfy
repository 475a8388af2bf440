/** The Python string primitives the resume pipeline is built from, on
    `string` (= `seq<char>`).  Character classes are the ASCII ones: Python's
    Unicode-aware `lower`, `isupper`, `isalpha`, `isdigit` and `isspace` are
    approximated by their ASCII behaviour. */
module Text {
  import opened Wrappers

  /** `str.isspace` for one character. */
  const Whitespace: set<char> := {' ', '\t', '\n', '\r', '\U{000B}', '\U{000C}'}

  predicate IsSpace(c: char) {
    c in Whitespace
  }

  predicate IsUpperChar(c: char) {
    'A' <= c <= 'Z'
  }

  predicate IsLowerChar(c: char) {
    'a' <= c <= 'z'
  }

  predicate IsLetter(c: char) {
    IsUpperChar(c) || IsLowerChar(c)
  }

  predicate IsDigit(c: char) {
    '0' <= c <= '9'
  }

  function LowerChar(c: char): (r: char)
    ensures !IsUpperChar(r)
    ensures IsLetter(c) <==> IsLetter(r)
  {
    if IsUpperChar(c) then (c as int + 32) as char else c
  }

  function UpperChar(c: char): (r: char)
    ensures !IsLowerChar(r)
  {
    if IsLowerChar(c) then (c as int - 32) as char else c
  }

  /** `str.lower()`. */
  function Lower(s: string): (r: string)
    ensures |r| == |s|
    ensures forall i :: 0 <= i < |s| ==> r[i] == LowerChar(s[i])
  {
    seq(|s|, i requires 0 <= i < |s| => LowerChar(s[i]))
  }

  /** Lower-casing leaves alone a string without upper-case letters. */
  lemma LowerUnchanged(s: string)
    requires forall i :: 0 <= i < |s| ==> !IsUpperChar(s[i])
    ensures Lower(s) == s
  {
  }

  /** Lower-casing commutes with slicing. */
  lemma LowerSlice(s: string, i: nat, j: nat)
    requires i <= j <= |s|
    ensures Lower(s)[i..j] == Lower(s[i..j])
  {
  }

  /** No ASCII upper-case letter occurs in `s`. */
  predicate IsLowerCase(s: string) {
    forall i :: 0 <= i < |s| ==> !IsUpperChar(s[i])
  }

  lemma LowerIsLowerCase(s: string)
    ensures IsLowerCase(Lower(s))
  {
  }

  /** `str.isupper()`: some cased character and no lower-case one. */
  predicate IsUpperStr(s: string) {
    (exists i :: 0 <= i < |s| && IsUpperChar(s[i])) && forall i :: 0 <= i < |s| ==> !IsLowerChar(s[i])
  }

  /** `str.isalpha()`: non-empty and letters only. */
  predicate IsAlpha(s: string) {
    |s| > 0 && forall i :: 0 <= i < |s| ==> IsLetter(s[i])
  }

  /** `str.isdigit()`: non-empty and digits only. */
  predicate IsDigits(s: string) {
    |s| > 0 && forall i :: 0 <= i < |s| ==> IsDigit(s[i])
  }

  predicate HasDigit(s: string) {
    exists i :: 0 <= i < |s| && IsDigit(s[i])
  }

  /** `t` occurs in `s` starting at index `i`. */
  predicate OccursAt(s: string, t: string, i: int) {
    0 <= i && i + |t| <= |s| && s[i..i + |t|] == t
  }

  /** `t in s` for strings. */
  predicate Contains(s: string, t: string) {
    exists i | 0 <= i <= |s| - |t| :: OccursAt(s, t, i)
  }

  /** `s.startswith(p)`. */
  predicate StartsWith(s: string, p: string) {
    |p| <= |s| && s[..|p|] == p
  }

  /** `s.endswith(p)`. */
  predicate EndsWith(s: string, p: string) {
    |p| <= |s| && s[|s| - |p|..] == p
  }

  /** Some word of `words` occurs in `s`. */
  predicate ContainsAny(s: string, words: seq<string>) {
    exists k | 0 <= k < |words| :: Contains(s, words[k])
  }

  /** Case-insensitive search for lower-case `words`: how the model reads
      `re.search(r'(?i)word', s)`. */
  predicate ContainsAnyCI(s: string, words: seq<string>) {
    ContainsAny(Lower(s), words)
  }

  /** Case-insensitive anchored match for lower-case `words`: how the model
      reads `re.match(r'(?i)word', s)`. */
  predicate StartsWithAnyCI(s: string, words: seq<string>) {
    exists k | 0 <= k < |words| :: StartsWith(Lower(s), words[k])
  }

  /** Drop leading characters of `cs` (`str.lstrip(chars)`). */
  function LStrip(s: string, cs: set<char>): (r: string)
    ensures |r| <= |s| && r == s[|s| - |r|..]
    ensures forall i :: 0 <= i < |s| - |r| ==> s[i] in cs
    ensures |r| > 0 ==> r[0] !in cs
    decreases |s|
  {
    if |s| > 0 && s[0] in cs then LStrip(s[1..], cs) else s
  }

  /** Drop trailing characters of `cs` (`str.rstrip(chars)`). */
  function RStrip(s: string, cs: set<char>): (r: string)
    ensures |r| <= |s| && r == s[..|r|]
    ensures forall i :: |r| <= i < |s| ==> s[i] in cs
    ensures |r| > 0 ==> r[|r| - 1] !in cs
    decreases |s|
  {
    if |s| > 0 && s[|s| - 1] in cs then RStrip(s[..|s| - 1], cs) else s
  }

  /** `str.strip(chars)`: the longest infix with no `cs` character at either end. */
  function Strip(s: string, cs: set<char>): (r: string)
    ensures |r| <= |s|
    ensures |r| > 0 ==> r[0] !in cs && r[|r| - 1] !in cs
    ensures r == [] <==> forall i :: 0 <= i < |s| ==> s[i] in cs
    ensures forall i :: 0 <= i < |r| ==> r[i] in s
  {
    StripFacts(s, cs);
    RStrip(LStrip(s, cs), cs)
  }

  lemma StripFacts(s: string, cs: set<char>)
    ensures var r := RStrip(LStrip(s, cs), cs);
      (|r| > 0 ==> r[0] !in cs)
      && (r == [] <==> forall i :: 0 <= i < |s| ==> s[i] in cs)
      && (forall i :: 0 <= i < |r| ==> r[i] in s)
  {
    var l := LStrip(s, cs);
    var r := RStrip(l, cs);
    var a := |s| - |l|;
    forall i | 0 <= i < |r|
      ensures r[i] in s
    {
      assert r[i] == l[i] == s[a + i];
    }
    if r == [] {
      assert |l| == 0;
    } else {
      assert r[0] == l[0] == s[a];
    }
  }

  /** Stripping leaves alone a string whose ends are kept. */
  lemma StripUnchanged(s: string, cs: set<char>)
    requires |s| > 0 && s[0] !in cs && s[|s| - 1] !in cs
    ensures Strip(s, cs) == s
  {
    assert LStrip(s, cs) == s;
    assert RStrip(s, cs) == s;
  }

  /** `str.strip()`. */
  function Trim(s: string): (r: string)
    ensures |r| <= |s|
    ensures |r| > 0 ==> !IsSpace(r[0]) && !IsSpace(r[|r| - 1])
    ensures r == [] <==> forall i :: 0 <= i < |s| ==> IsSpace(s[i])
    ensures forall i :: 0 <= i < |r| ==> r[i] in s
  {
    Strip(s, Whitespace)
  }

  /** Stripping leaves alone a string without whitespace at either end. */
  lemma TrimUnchanged(s: string)
    requires |s| > 0 && !IsSpace(s[0]) && !IsSpace(s[|s| - 1])
    ensures Trim(s) == s
  {
    StripUnchanged(s, Whitespace);
  }

  /** A space on either side of a stripped string is stripped away. */
  lemma TrimPadding(s: string)
    requires |s| > 0 && !IsSpace(s[0]) && !IsSpace(s[|s| - 1])
    ensures Trim(s + " ") == s && Trim(" " + s) == s
  {
    assert LStrip(s + " ", Whitespace) == s + " ";
    assert (s + " ")[..|s|] == s;
    assert RStrip(s + " ", Whitespace) == RStrip(s, Whitespace);
    assert RStrip(s, Whitespace) == s;
    assert (" " + s)[1..] == s;
    assert LStrip(" " + s, Whitespace) == LStrip(s, Whitespace);
    assert LStrip(s, Whitespace) == s;
    assert RStrip(s, Whitespace) == s;
  }

  /** Stripping twice is stripping once. */
  lemma TrimIdempotent(s: string)
    ensures Trim(Trim(s)) == Trim(s)
  {
    var t := Trim(s);
    if |t| > 0 {
      TrimUnchanged(t);
    }
  }

  /** Stripping removes characters and adds none. */
  lemma TrimKeepsOut(s: string, c: char)
    requires c !in s
    ensures c !in Trim(s)
  {
    var r := Trim(s);
    assert forall i :: 0 <= i < |r| ==> r[i] in s;
  }

  /** Stripping keeps out every character of `cs` that `s` keeps out. */
  lemma TrimAvoids(s: string, cs: set<char>)
    requires forall i :: 0 <= i < |s| ==> s[i] !in cs
    ensures forall i :: 0 <= i < |Trim(s)| ==> Trim(s)[i] !in cs
  {
    var r := Trim(s);
    forall i | 0 <= i < |r|
      ensures r[i] !in cs
    {
      var j :| 0 <= j < |s| && s[j] == r[i];
    }
  }

  /** Python truthiness of a string: `bool(s)`. */
  predicate Blank(s: string) {
    Trim(s) == []
  }

  /** `bool(s.strip())`: something besides whitespace. */
  predicate NonBlank(s: string) {
    Trim(s) != []
  }

  /** `s.split(c)` generalised to a set of separator characters: the pieces
      between separators, always at least one. */
  function Split(s: string, cs: set<char>): (r: seq<string>)
    ensures |r| >= 1
    ensures forall k :: 0 <= k < |r| ==> forall i :: 0 <= i < |r[k]| ==> r[k][i] !in cs
    ensures forall k :: 0 <= k < |r| ==> forall i :: 0 <= i < |r[k]| ==> r[k][i] in s
    decreases |s|
  {
    if |s| == 0 then [""]
    else
      var rest := Split(s[1..], cs);
      if s[0] in cs then [""] + rest
      else [[s[0]] + rest[0]] + rest[1..]
  }

  /** `sep.join(parts)`. */
  function Join(parts: seq<string>, sep: string): string
    decreases |parts|
  {
    if |parts| == 0 then ""
    else if |parts| == 1 then parts[0]
    else parts[0] + sep + Join(parts[1..], sep)
  }

  /** `text.split('\n')`. */
  function Lines(text: string): (r: seq<string>)
    ensures |r| >= 1
    ensures forall k :: 0 <= k < |r| ==> '\n' !in r[k]
  {
    var r := Split(text, {'\n'});
    assert forall k :: 0 <= k < |r| ==> forall i :: 0 <= i < |r[k]| ==> r[k][i] != '\n';
    r
  }

  lemma JoinCons(p: string, rest: seq<string>, sep: string)
    requires |rest| >= 1
    ensures Join([p] + rest, sep) == p + sep + Join(rest, sep)
  {
    assert ([p] + rest)[1..] == rest;
  }

  lemma JoinConsPair(p: string, q: string, rest: seq<string>, sep: string)
    requires |rest| >= 1
    ensures Join([p, q] + rest, sep) == p + sep + q + sep + Join(rest, sep)
  {
    JoinCons(q, rest, sep);
    assert [p] + ([q] + rest) == [p, q] + rest;
    JoinCons(p, [q] + rest, sep);
  }

  /** Prepending a character to the first piece prepends it to the join. */
  lemma JoinConsHead(x: char, rest: seq<string>, sep: string)
    requires |rest| >= 1
    ensures Join([[x] + rest[0]] + rest[1..], sep) == [x] + Join(rest, sep)
  {
    if |rest| > 1 {
      JoinCons(rest[0], rest[1..], sep);
      assert [rest[0]] + rest[1..] == rest;
      JoinCons([x] + rest[0], rest[1..], sep);
    }
  }

  /** The last character of a join is that of its last piece. */
  lemma {:induction false} JoinLast(parts: seq<string>, sep: string)
    requires |parts| >= 1 && |parts[|parts| - 1]| > 0
    ensures |Join(parts, sep)| > 0
    ensures Join(parts, sep)[|Join(parts, sep)| - 1] == parts[|parts| - 1][|parts[|parts| - 1]| - 1]
    decreases |parts|
  {
    if |parts| > 1 {
      JoinLast(parts[1..], sep);
    }
  }

  /** A character in no piece and not in the separator is not in the join. */
  lemma {:induction false} JoinAvoids(parts: seq<string>, sep: string, c: char)
    requires forall k :: 0 <= k < |parts| ==> c !in parts[k]
    requires c !in sep
    ensures c !in Join(parts, sep)
    decreases |parts|
  {
    if |parts| > 1 {
      JoinAvoids(parts[1..], sep, c);
    }
  }

  /** Joining the pieces of a split with the separator gives the text back. */
  lemma {:induction false} JoinSplit(s: string, c: char)
    ensures Join(Split(s, {c}), [c]) == s
    decreases |s|
  {
    if |s| > 0 {
      var rest := Split(s[1..], {c});
      JoinSplit(s[1..], c);
      assert [s[0]] + s[1..] == s;
      if s[0] == c {
        JoinCons("", rest, [c]);
      } else {
        JoinConsHead(s[0], rest, [c]);
      }
    }
  }

  lemma {:induction false} SplitNoSeparator(p: string, c: char)
    requires c !in p
    ensures Split(p, {c}) == [p]
    decreases |p|
  {
    if |p| > 0 {
      SplitNoSeparator(p[1..], c);
      assert [p[0]] + p[1..] == p;
    }
  }

  lemma {:induction false} SplitAtSeparator(p: string, c: char, t: string)
    requires c !in p
    ensures Split(p + [c] + t, {c}) == [p] + Split(t, {c})
    decreases |p|
  {
    var s := p + [c] + t;
    if |p| == 0 {
      assert s[1..] == t;
    } else {
      assert s[1..] == p[1..] + [c] + t;
      SplitAtSeparator(p[1..], c, t);
      assert [p[0]] + p[1..] == p;
    }
  }

  /** Splitting a join of separator-free pieces gives the pieces back: the
      inverse of `JoinSplit`. */
  lemma {:induction false} SplitJoin(parts: seq<string>, c: char)
    requires |parts| >= 1
    requires forall k :: 0 <= k < |parts| ==> c !in parts[k]
    ensures Split(Join(parts, [c]), {c}) == parts
    decreases |parts|
  {
    if |parts| == 1 {
      SplitNoSeparator(parts[0], c);
    } else {
      JoinCons(parts[0], parts[1..], [c]);
      assert [parts[0]] + parts[1..] == parts;
      SplitJoin(parts[1..], c);
      SplitAtSeparator(parts[0], c, Join(parts[1..], [c]));
    }
  }

  /** `Lines` and `Join(_, "\n")` are inverse to each other. */
  lemma LinesJoin(lines: seq<string>)
    requires |lines| >= 1
    requires forall k :: 0 <= k < |lines| ==> '\n' !in lines[k]
    ensures Lines(Join(lines, "\n")) == lines
  {
    SplitJoin(lines, '\n');
  }

  /** A contiguous run of newline-free lines survives a join and re-split. */
  lemma LinesSliceJoin(lines: seq<string>, s: nat, e: nat)
    requires s < e <= |lines|
    requires forall k :: 0 <= k < |lines| ==> '\n' !in lines[k]
    ensures Lines(Join(lines[s..e], "\n")) == lines[s..e]
  {
    var r := lines[s..e];
    forall k | 0 <= k < |r|
      ensures '\n' !in r[k]
    {
      assert r[k] == lines[s + k];
    }
    LinesJoin(r);
  }

  /** The leading run of non-space characters of `s`. */
  function WordPrefix(s: string): (r: string)
    ensures |r| <= |s| && r == s[..|r|]
    ensures forall i :: 0 <= i < |r| ==> !IsSpace(r[i])
    ensures |r| < |s| ==> IsSpace(s[|r|])
    decreases |s|
  {
    if |s| == 0 || IsSpace(s[0]) then "" else [s[0]] + WordPrefix(s[1..])
  }

  /** `s.split()` with no argument: the maximal runs of non-space characters. */
  function Words(s: string): (r: seq<string>)
    ensures forall k :: 0 <= k < |r| ==> |r[k]| > 0
    ensures forall k :: 0 <= k < |r| ==> forall i :: 0 <= i < |r[k]| ==> !IsSpace(r[k][i])
    ensures |r| <= |s|
    decreases |s|
  {
    if |s| == 0 then []
    else if IsSpace(s[0]) then Words(s[1..])
    else
      var w := WordPrefix(s);
      [w] + Words(s[|w|..])
  }

  /** Replace every character of `cs` by `by` (a chain of `str.replace`). */
  function ReplaceChars(s: string, cs: set<char>, sub: char): (r: string)
    ensures |r| == |s|
    ensures forall i :: 0 <= i < |s| ==> r[i] == (if s[i] in cs then sub else s[i])
  {
    seq(|s|, i requires 0 <= i < |s| => if s[i] in cs then sub else s[i])
  }

  /** `s.count(c)`. */
  function CountChar(s: string, c: char): (n: nat)
    ensures n <= |s|
    ensures n == 0 <==> c !in s
    decreases |s|
  {
    if |s| == 0 then 0 else (if s[0] == c then 1 else 0) + CountChar(s[1..], c)
  }

  /** The first index at or after `from` where `t` occurs in `s`. */
  function IndexFrom(s: string, t: string, from: nat): (r: Option<nat>)
    ensures r.Some? ==> from <= r.value && OccursAt(s, t, r.value)
    ensures r.Some? ==> forall j :: from <= j < r.value ==> !OccursAt(s, t, j)
    ensures r.None? ==> forall j :: from <= j ==> !OccursAt(s, t, j)
    decreases |s| - from
  {
    if from + |t| > |s| then None
    else if OccursAt(s, t, from) then Some(from)
    else IndexFrom(s, t, from + 1)
  }

  /** The first occurrence of `t` in `s` (`s.find(t)`, or None for -1). */
  function IndexOf(s: string, t: string): (r: Option<nat>)
    ensures r.Some? ==> OccursAt(s, t, r.value)
    ensures r.Some? ==> forall j :: 0 <= j < r.value ==> !OccursAt(s, t, j)
    ensures r.None? <==> !Contains(s, t)
  {
    IndexFrom(s, t, 0)
  }

  /** `s.split(sep)[0]`: the text before the first `sep`, or all of `s`. */
  function Before(s: string, sep: string): (r: string)
    ensures Contains(s, sep) ==> |r| + |sep| <= |s| && r + sep == s[..|r| + |sep|]
    ensures !Contains(s, sep) ==> r == s
  {
    match IndexOf(s, sep)
    case Some(i) => s[..i]
    case None => s
  }

  /** `s.split(sep, 1)[1]`: the text after the first `sep`, or "" when absent. */
  function After(s: string, sep: string): (r: string)
    ensures Contains(s, sep) ==> Before(s, sep) + sep + r == s
    ensures !Contains(s, sep) ==> r == ""
  {
    match IndexOf(s, sep)
    case Some(i) =>
      assert s[..i] + sep + s[i + |sep|..] == s by {
        assert s[..i] + s[i..i + |sep|] + s[i + |sep|..] == s;
      }
      s[i + |sep|..]
    case None => ""
  }

  /** The value of a run of decimal digits (`int(s)` for such `s`). */
  function DigitsValue(s: string): nat
    decreases |s|
  {
    if |s| == 0 then 0
    else DigitsValue(s[..|s| - 1]) * 10 + (if IsDigit(s[|s| - 1]) then s[|s| - 1] as int - '0' as int else 0)
  }

  /** `str(n)` for a natural number. */
  function NatToString(n: nat): (r: string)
    ensures |r| >= 1
    ensures IsDigits(r)
    ensures DigitsValue(r) == n
    decreases n
  {
    var d := ['0' + (n % 10) as char];
    if n < 10 then d
    else
      var p := NatToString(n / 10);
      assert (p + d)[..|p + d| - 1] == p;
      p + d
  }

  /** `str.title()` with the previous character's casedness threaded through:
      a letter is upper-cased after a non-letter and lower-cased after a letter. */
  function TitleFrom(s: string, afterLetter: bool): (r: string)
    ensures |r| == |s|
    ensures forall i :: 0 <= i < |s| ==> (IsLetter(s[i]) <==> IsLetter(r[i]))
    ensures forall i :: 0 <= i < |s| ==> LowerChar(r[i]) == LowerChar(s[i])
    decreases |s|
  {
    if |s| == 0 then ""
    else
      var c := s[0];
      var c' := if !IsLetter(c) then c else if afterLetter then LowerChar(c) else UpperChar(c);
      [c'] + TitleFrom(s[1..], IsLetter(c))
  }

  /** Where `TitleFrom` puts capitals: a letter comes out upper-case
      exactly when the character before it (or, at the start,
      `afterLetter`) is not a letter. */
  lemma {:induction false} TitleFromShape(s: string, afterLetter: bool)
    ensures forall i :: 0 <= i < |s| && IsLetter(s[i]) ==>
      (IsUpperChar(TitleFrom(s, afterLetter)[i]) <==> if i == 0 then !afterLetter else !IsLetter(s[i - 1]))
    decreases |s|
  {
    if |s| > 0 {
      var r := TitleFrom(s, afterLetter);
      var rest := TitleFrom(s[1..], IsLetter(s[0]));
      TitleFromShape(s[1..], IsLetter(s[0]));
      assert r == [r[0]] + rest;
      forall i | 0 < i < |s| && IsLetter(s[i])
        ensures IsUpperChar(r[i]) <==> !IsLetter(s[i - 1])
      {
        assert r[i] == rest[i - 1] && s[1..][i - 1] == s[i];
        if i > 1 {
          assert s[1..][i - 2] == s[i - 1];
        }
      }
    }
  }

  /** `str.title()`. */
  function Title(s: string): (r: string)
    ensures Lower(r) == Lower(s)
    ensures (exists i :: 0 <= i < |s| && IsLetter(s[i])) ==> IsTitle(r)
  {
    TitleFromTitled(s);
    TitleFrom(s, false)
  }

  /** Title-casing a string with a letter in it gives a title-cased string. */
  lemma TitleFromTitled(s: string)
    ensures (exists i :: 0 <= i < |s| && IsLetter(s[i])) ==> IsTitle(TitleFrom(s, false))
  {
    var r := TitleFrom(s, false);
    TitleFromShape(s, false);
    if exists i :: 0 <= i < |s| && IsLetter(s[i]) {
      var i :| 0 <= i < |s| && IsLetter(s[i]);
      assert IsLetter(r[i]);
      forall i | 0 <= i < |r| && IsUpperChar(r[i])
        ensures i == 0 || !IsLetter(r[i - 1])
      {
        assert IsLetter(s[i]);
        if i > 0 {
          assert IsLetter(s[i - 1]) <==> IsLetter(r[i - 1]);
        }
      }
      forall i | 0 <= i < |r| && IsLowerChar(r[i])
        ensures i > 0 && IsLetter(r[i - 1])
      {
        assert IsLetter(s[i]);
        if i > 0 {
          assert IsLetter(s[i - 1]) <==> IsLetter(r[i - 1]);
        }
      }
    }
  }

  /** `str.istitle()`: some cased character, upper-case letters only after
      non-letters and lower-case letters only after letters. */
  predicate IsTitle(s: string) {
    (exists i :: 0 <= i < |s| && IsLetter(s[i]))
    && (forall i :: 0 <= i < |s| && IsUpperChar(s[i]) ==> i == 0 || !IsLetter(s[i - 1]))
    && (forall i :: 0 <= i < |s| && IsLowerChar(s[i]) ==> i > 0 && IsLetter(s[i - 1]))
  }

  /** Every string stripped: `[s.strip() for s in ss]`. */
  function TrimAll(ss: seq<string>): (r: seq<string>)
    ensures |r| == |ss|
    ensures forall k :: 0 <= k < |ss| ==> r[k] == Trim(ss[k])
  {
    seq(|ss|, k requires 0 <= k < |ss| => Trim(ss[k]))
  }

  /** Neither end of `s` is in `cs`: what `Strip(_, cs)` leaves. */
  predicate StrippedOf(s: string, cs: set<char>) {
    |s| > 0 ==> s[0] !in cs && s[|s| - 1] !in cs
  }

  /** Every string stripped of `cs`: `[s.strip(cs) for s in ss]`. */
  function StripAll(ss: seq<string>, cs: set<char>): (r: seq<string>)
    ensures |r| == |ss|
    ensures forall k :: 0 <= k < |ss| ==> r[k] == Strip(ss[k], cs)
    ensures forall x :: x in r ==> StrippedOf(x, cs)
  {
    seq(|ss|, k requires 0 <= k < |ss| => Strip(ss[k], cs))
  }

  /** The non-empty strings, in order: `[s for s in ss if s]`. */
  function NonEmpty(ss: seq<string>): (r: seq<string>)
    ensures |r| <= |ss|
    ensures forall x :: x in r ==> x in ss && x != ""
    ensures forall x :: x in ss && x != "" ==> x in r
    decreases |ss|
  {
    if |ss| == 0 then []
    else
      assert forall x :: x in ss ==> x == ss[0] || x in ss[1..];
      if ss[0] != "" then [ss[0]] + NonEmpty(ss[1..]) else NonEmpty(ss[1..])
  }

  /** `[l.strip() for l in lines if l.strip()]`. */
  function StrippedNonBlank(lines: seq<string>): (r: seq<string>)
    ensures |r| <= |lines|
    ensures forall x :: x in r ==> x != "" && exists k :: 0 <= k < |lines| && x == Trim(lines[k])
  {
    var ts := TrimAll(lines);
    var r := NonEmpty(ts);
    assert forall x :: x in r ==> exists k :: 0 <= k < |lines| && x == ts[k];
    r
  }

  /** Stripping the first line and keeping it when non-blank, then the rest:
      the loop's first step. */
  lemma StrippedNonBlankCons(lines: seq<string>)
    requires |lines| > 0
    ensures StrippedNonBlank(lines) ==
      if Trim(lines[0]) != "" then [Trim(lines[0])] + StrippedNonBlank(lines[1..]) else StrippedNonBlank(lines[1..])
  {
    assert TrimAll(lines)[1..] == TrimAll(lines[1..]);
  }

  /** Stripping keeps out every character no line contains. */
  lemma StrippedNonBlankAvoids(lines: seq<string>, cs: set<char>)
    requires forall k :: 0 <= k < |lines| ==> forall i :: 0 <= i < |lines[k]| ==> lines[k][i] !in cs
    ensures forall k :: 0 <= k < |StrippedNonBlank(lines)| ==>
      forall i :: 0 <= i < |StrippedNonBlank(lines)[k]| ==> StrippedNonBlank(lines)[k][i] !in cs
  {
    var r := StrippedNonBlank(lines);
    forall k | 0 <= k < |r|
      ensures forall i :: 0 <= i < |r[k]| ==> r[k][i] !in cs
    {
      assert r[k] in r;
      var j :| 0 <= j < |lines| && r[k] == Trim(lines[j]);
      TrimAvoids(lines[j], cs);
    }
  }

  /** Every line that is not blank is kept, stripped. */
  lemma StrippedNonBlankKeeps(lines: seq<string>, k: nat)
    requires k < |lines| && Trim(lines[k]) != ""
    ensures Trim(lines[k]) in StrippedNonBlank(lines)
  {
    assert TrimAll(lines)[k] == Trim(lines[k]);
  }

  /** The length of the run of ASCII letters starting at `i`. */
  function LetterRun(s: string, i: nat): (n: nat)
    requires i <= |s|
    ensures i + n <= |s|
    ensures forall j :: i <= j < i + n ==> IsLetter(s[j])
    ensures i + n < |s| ==> !IsLetter(s[i + n])
    decreases |s| - i
  {
    if i < |s| && IsLetter(s[i]) then 1 + LetterRun(s, i + 1) else 0
  }

  /** The length of the run of whitespace starting at `i`. */
  function SpaceRun(s: string, i: nat): (n: nat)
    requires i <= |s|
    ensures i + n <= |s|
    ensures forall j :: i <= j < i + n ==> IsSpace(s[j])
    ensures i + n < |s| ==> !IsSpace(s[i + n])
    decreases |s| - i
  {
    if i < |s| && IsSpace(s[i]) then 1 + SpaceRun(s, i + 1) else 0
  }
}
