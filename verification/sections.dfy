/** Locating a titled section of a resume: the first line that mentions a
    heading, up to the next line that looks like another major heading. */
module Sections {
  import opened Wrappers
  import opened Text
  import opened Seqs

  /** Headings that close a section when a later line starts with one. */
  const EndHeadings: seq<string> :=
    ["experience", "education", "skills", "projects", "certifications", "awards", "references"]

  /** The line mentions one of the (lower-case) heading patterns. */
  predicate IsHeading(line: string, patterns: seq<string>) {
    ContainsAnyCI(line, patterns)
  }

  /** A later line ends the section: once stripped it is non-empty, starts
      with a major heading word, has at most three words and a capital
      first character. */
  predicate IsSectionEnd(line: string) {
    var l := Trim(line);
    |l| > 0 && StartsWithAnyCI(l, EndHeadings) && |Words(l)| <= 3 && IsUpperChar(l[0])
  }

  /** The first index at or after `from` of a heading line. */
  function FindHeading(lines: seq<string>, patterns: seq<string>, from: nat): (r: Option<nat>)
    ensures r.Some? ==> from <= r.value < |lines| && IsHeading(lines[r.value], patterns)
    ensures r.Some? ==> forall j :: from <= j < r.value ==> !IsHeading(lines[j], patterns)
    ensures r.None? ==> forall j :: from <= j < |lines| ==> !IsHeading(lines[j], patterns)
    decreases |lines| - from
  {
    if from >= |lines| then None
    else if IsHeading(lines[from], patterns) then Some(from)
    else FindHeading(lines, patterns, from + 1)
  }

  /** Which lines end a section, computed once per text. */
  function EndFlags(lines: seq<string>): (r: seq<bool>)
    ensures |r| == |lines|
    ensures forall j :: 0 <= j < |lines| ==> (r[j] <==> IsSectionEnd(lines[j]))
  {
    seq(|lines|, j requires 0 <= j < |lines| => IsSectionEnd(lines[j]))
  }

  /** The first index at or after `from` of a set flag, or `|flags|`. */
  function FindEnd(flags: seq<bool>, from: nat): (r: nat)
    requires from <= |flags|
    ensures from <= r <= |flags|
    ensures r < |flags| ==> flags[r]
    ensures forall j :: from <= j < r ==> !flags[j]
    decreases |flags| - from
  {
    if from == |flags| then from
    else if flags[from] then from
    else FindEnd(flags, from + 1)
  }

  /** Where the section sits: `(start, end)` with the heading at `start`
      and the section running up to, not including, `end`. */
  function LocateSection(lines: seq<string>, patterns: seq<string>): (r: Option<(nat, nat)>)
    ensures r.None? <==> forall j :: 0 <= j < |lines| ==> !IsHeading(lines[j], patterns)
    ensures r.Some? ==>
      var (s, e) := r.value;
      s < e <= |lines|
      && IsHeading(lines[s], patterns)
      && (forall j :: 0 <= j < s ==> !IsHeading(lines[j], patterns))
      && (forall j :: s < j < e ==> !IsSectionEnd(lines[j]))
      && (e < |lines| ==> IsSectionEnd(lines[e]))
  {
    match FindHeading(lines, patterns, 0)
    case None => None
    case Some(s) => Some((s, FindEnd(EndFlags(lines), s + 1)))
  }

  /** The lines of the section, heading line first; empty when no line
      mentions a heading. */
  function SectionLines(lines: seq<string>, patterns: seq<string>): (r: seq<string>)
    ensures r == [] <==> LocateSection(lines, patterns).None?
    ensures r != [] ==> IsHeading(r[0], patterns)
    ensures forall k :: 1 <= k < |r| ==> !IsSectionEnd(r[k])
  {
    match LocateSection(lines, patterns)
    case None => []
    case Some((s, e)) => lines[s..e]
  }

  /** The text of the section: its lines joined with newlines, or "". */
  function ExtractSection(text: string, patterns: seq<string>): (r: string)
  {
    Join(SectionLines(Lines(text), patterns), "\n")
  }

  /** Splitting the extracted section into lines again gives exactly the
      located lines: the section is a contiguous run of the text's lines. */
  lemma SectionLinesRoundTrip(text: string, patterns: seq<string>)
    requires SectionLines(Lines(text), patterns) != []
    ensures Lines(ExtractSection(text, patterns)) == SectionLines(Lines(text), patterns)
  {
    var lines := Lines(text);
    var (s, e) := LocateSection(lines, patterns).value;
    LinesSliceJoin(lines, s, e);
  }

  /** With non-empty patterns the section is empty exactly when no line
      mentions a heading. */
  lemma SectionEmptyIff(text: string, patterns: seq<string>)
    requires forall k :: 0 <= k < |patterns| ==> |patterns[k]| > 0
    ensures ExtractSection(text, patterns) == "" <==> forall j :: 0 <= j < |Lines(text)| ==> !IsHeading(Lines(text)[j], patterns)
  {
    var r := SectionLines(Lines(text), patterns);
    if r != [] {
      var k :| 0 <= k < |patterns| && Contains(Lower(r[0]), patterns[k]);
      assert |r[0]| > 0;
      if |r| > 1 {
        JoinCons(r[0], r[1..], "\n");
        assert [r[0]] + r[1..] == r;
      }
    }
  }

  /** `s` occurs in `t` as a contiguous piece. */
  lemma ContainsTrans(a: string, b: string, c: string)
    requires Contains(a, b) && Contains(b, c)
    ensures Contains(a, c)
  {
    var i :| 0 <= i <= |a| - |b| && OccursAt(a, b, i);
    var j :| 0 <= j <= |b| - |c| && OccursAt(b, c, j);
    assert b == a[i..i + |b|] && c == b[j..j + |c|];
    forall t | 0 <= t < |c|
      ensures a[i + j + t] == c[t]
    {
      assert c[t] == b[j + t];
    }
    assert a[i + j..i + j + |c|] == c;
    assert OccursAt(a, c, i + j);
  }

  lemma ContainsAffixes(x: string, m: string, y: string)
    ensures Contains(x + m + y, m)
  {
    assert (x + m + y)[|x|..|x| + |m|] == m;
    assert OccursAt(x + m + y, m, |x|);
  }

  lemma ContainsLower(a: string, b: string)
    requires Contains(a, b)
    ensures Contains(Lower(a), Lower(b))
  {
    var i :| 0 <= i <= |a| - |b| && OccursAt(a, b, i);
    assert Lower(a)[i..i + |b|] == Lower(b);
    assert OccursAt(Lower(a), Lower(b), i);
  }

  /** Joining separated pieces distributes over concatenation. */
  lemma {:induction false} JoinAppend(x: seq<string>, y: seq<string>, sep: string)
    requires |x| >= 1 && |y| >= 1
    ensures Join(x + y, sep) == Join(x, sep) + sep + Join(y, sep)
    decreases |x|
  {
    if |x| == 1 {
      JoinCons(x[0], y, sep);
      assert [x[0]] + y == x + y;
    } else {
      assert (x + y)[1..] == x[1..] + y;
      JoinAppend(x[1..], y, sep);
      JoinCons(x[0], x[1..] + y, sep);
      JoinCons(x[0], x[1..], sep);
      assert [x[0]] + (x[1..] + y) == x + y;
      assert [x[0]] + x[1..] == x;
    }
  }

  lemma ContainsSelf(a: string)
    ensures Contains(a, a)
  {
    assert OccursAt(a, a, 0);
  }

  lemma JoinPrefixContained(x: seq<string>, y: seq<string>, sep: string)
    requires |x| >= 1
    ensures Contains(Join(x + y, sep), Join(x, sep))
  {
    if |y| == 0 {
      assert x + y == x;
      ContainsSelf(Join(x, sep));
    } else {
      JoinAppend(x, y, sep);
      ContainsAffixes("", Join(x, sep), sep + Join(y, sep));
      assert "" + Join(x, sep) + (sep + Join(y, sep)) == Join(x + y, sep);
    }
  }

  lemma JoinSuffixContained(x: seq<string>, y: seq<string>, sep: string)
    requires |y| >= 1
    ensures Contains(Join(x + y, sep), Join(y, sep))
  {
    if |x| == 0 {
      assert x + y == y;
      ContainsSelf(Join(y, sep));
    } else {
      JoinAppend(x, y, sep);
      ContainsAffixes(Join(x, sep) + sep, Join(y, sep), "");
      assert Join(x, sep) + sep + Join(y, sep) + "" == Join(x + y, sep);
    }
  }

  /** The join of a contiguous run of lines occurs in the join of all lines. */
  lemma JoinSliceContained(lines: seq<string>, s: nat, e: nat, sep: string)
    requires s < e <= |lines|
    ensures Contains(Join(lines, sep), Join(lines[s..e], sep))
  {
    assert lines[..e] == lines[..s] + lines[s..e];
    JoinSuffixContained(lines[..s], lines[s..e], sep);
    assert lines == lines[..e] + lines[e..];
    JoinPrefixContained(lines[..e], lines[e..], sep);
    ContainsTrans(Join(lines, sep), Join(lines[..e], sep), Join(lines[s..e], sep));
  }

  /** The extracted section is a piece of the text itself, so whatever
      occurs in the section (in any case) occurs in the text. */
  lemma SectionInText(text: string, patterns: seq<string>, w: string)
    requires Contains(Lower(ExtractSection(text, patterns)), w)
    ensures Contains(Lower(text), w)
  {
    var lines := Lines(text);
    var r := SectionLines(lines, patterns);
    if r == [] {
      assert ExtractSection(text, patterns) == "";
      assert Lower("") == "";
      var i :| 0 <= i <= 0 - |w| && OccursAt("", w, i);
      assert |w| == 0;
      assert OccursAt(Lower(text), w, 0);
    } else {
      var (s, e) := LocateSection(lines, patterns).value;
      JoinSliceContained(lines, s, e, "\n");
      JoinSplit(text, '\n');
      ContainsLower(text, ExtractSection(text, patterns));
      ContainsTrans(Lower(text), Lower(ExtractSection(text, patterns)), w);
    }
  }
}
