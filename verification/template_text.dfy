/** The text helpers of the template context builder: the sentence
    splitter `(?<=[.!?])\s+`, the first-sentence and project-sentence
    pickers, the technology scanner, and the two bulletisers. */
module TemplateText {
  import opened Wrappers
  import opened Text
  import opened Seqs

  // ---------------------------------------------------------------------
  // Sentences
  // ---------------------------------------------------------------------

  const SentenceEnders: set<char> := {'.', '!', '?'}

  /** A sentence break starts at `j`: whitespace right after `.`, `!` or `?`. */
  predicate IsBreakAt(t: string, j: int) {
    0 < j < |t| && t[j - 1] in SentenceEnders && IsSpace(t[j])
  }

  /** No sentence break inside `s`. */
  predicate OneSentence(s: string) {
    forall j :: 0 < j < |s| ==> !IsBreakAt(s, j)
  }

  /** The first sentence break at or after `from`. */
  function BreakFrom(t: string, from: nat): (r: Option<nat>)
    ensures r.Some? ==> from <= r.value && IsBreakAt(t, r.value)
    ensures r.Some? ==> forall j :: from <= j < r.value ==> !IsBreakAt(t, j)
    ensures r.None? ==> forall j :: from <= j ==> !IsBreakAt(t, j)
    decreases |t| - from
  {
    if from >= |t| then None
    else if IsBreakAt(t, from) then Some(from)
    else BreakFrom(t, from + 1)
  }

  /** A prefix keeps the sentence breaks that lie inside it. */
  lemma PrefixBreaks(t: string, i: nat)
    requires i <= |t|
    ensures forall j :: 0 < j < i ==> (IsBreakAt(t[..i], j) <==> IsBreakAt(t, j))
  {
  }

  /** `re.split(r'(?<=[.!?])\s+', t)`: the pieces between breaks, each
      break consuming its whole whitespace run. */
  function SentenceSplit(t: string): (r: seq<string>)
    ensures |r| >= 1
    ensures |r[0]| <= |t| && r[0] == t[..|r[0]|] && OneSentence(r[0])
    ensures |r[0]| == |t| || IsBreakAt(t, |r[0]|)
    ensures |t| > 0 ==> |r[0]| > 0
    decreases |t|
  {
    match BreakFrom(t, 1)
    case None =>
      assert forall j :: 0 < j < |t| ==> !IsBreakAt(t, j);
      [t]
    case Some(i) =>
      PrefixBreaks(t, i);
      [t[..i]] + SentenceSplit(t[i + SpaceRun(t, i)..])
  }

  /** `BreakFrom` finds the first break after `from`. */
  lemma {:induction false} BreakFromAt(t: string, from: nat, i: nat)
    requires from <= i && IsBreakAt(t, i)
    requires forall j :: from <= j < i ==> !IsBreakAt(t, j)
    ensures BreakFrom(t, from) == Some(i)
    decreases i - from
  {
    if from < i {
      BreakFromAt(t, from + 1, i);
    }
  }

  /** A sentence the splitter separates cleanly from its successor: it has
      no inner break and does not start with whitespace. */
  predicate CleanSentence(s: string) {
    |s| > 0 && OneSentence(s) && !IsSpace(s[0])
  }

  /** `s` ends with `.`, `!` or `?`. */
  predicate Closed(s: string) {
    |s| > 0 && s[|s| - 1] in SentenceEnders
  }

  /** A sentence closed by `.`, `!` or `?`, joined by one space to the
      rest, splits off as the first piece. */
  lemma SentenceSplitCons(p: string, q: string)
    requires CleanSentence(p) && Closed(p)
    requires |q| > 0 && !IsSpace(q[0])
    ensures SentenceSplit(p + " " + q) == [p] + SentenceSplit(q)
  {
    var t := p + " " + q;
    forall j | 1 <= j < |p|
      ensures !IsBreakAt(t, j)
    {
      assert t[j] == p[j] && t[j - 1] == p[j - 1];
      assert !IsBreakAt(p, j);
    }
    assert IsBreakAt(t, |p|);
    BreakFromAt(t, 1, |p|);
    var n := SpaceRun(t, |p|);
    assert t[|p| + 1] == q[0];
    assert n == 1;
    assert t[..|p|] == p;
    assert t[|p| + 1..] == q;
  }

  /** The first character of a join is that of its first piece. */
  lemma JoinHead(parts: seq<string>, sep: string)
    requires |parts| >= 1 && |parts[0]| > 0
    ensures |Join(parts, sep)| > 0 && Join(parts, sep)[0] == parts[0][0]
  {
    if |parts| > 1 {
      JoinCons(parts[0], parts[1..], sep);
      assert [parts[0]] + parts[1..] == parts;
    }
  }

  /** Splitting sentences joined with single spaces gives them back, when
      every sentence but the last is closed by `.`, `!` or `?`. */
  lemma {:induction false} SentenceSplitJoin(ss: seq<string>)
    requires |ss| >= 1
    requires forall k :: 0 <= k < |ss| ==> CleanSentence(ss[k])
    requires forall k :: 0 <= k < |ss| - 1 ==> Closed(ss[k])
    ensures SentenceSplit(Join(ss, " ")) == ss
    decreases |ss|
  {
    if |ss| == 1 {
      assert BreakFrom(ss[0], 1).None?;
    } else {
      var rest := ss[1..];
      SentenceSplitJoin(rest);
      JoinCons(ss[0], rest, " ");
      JoinHead(rest, " ");
      SentenceSplitCons(ss[0], Join(rest, " "));
      assert [ss[0]] + rest == ss;
    }
  }

  /** `s` is the leading sentence of `t`: a prefix free of breaks that
      ends at a break or at the end of `t`. */
  predicate IsLeadSentence(t: string, s: string) {
    |s| <= |t| && s == t[..|s|] && OneSentence(s) && (|s| == |t| || IsBreakAt(t, |s|))
  }

  /** The leading sentence is unique, so `SentenceSplit`'s first piece is
      fully determined by `IsLeadSentence`. */
  lemma LeadSentenceUnique(t: string, a: string, b: string)
    requires IsLeadSentence(t, a) && IsLeadSentence(t, b)
    ensures a == b
  {
    if |a| < |b| {
      assert IsBreakAt(b, |a|);
    } else if |b| < |a| {
      assert IsBreakAt(a, |b|);
    }
  }

  /** A sentence longer than `maxLen` cut to it, trailing whitespace
      dropped, and marked with "...". */
  function Ellipsized(s: string, maxLen: nat): (r: string)
    requires maxLen < |s|
    ensures EndsWith(r, "...") && |r| - 3 <= maxLen
    ensures r[..|r| - 3] == s[..|r| - 3]
  {
    var cut := RStrip(s[..maxLen], Whitespace);
    var dots := "...";
    assert (cut + dots)[..|cut|] == cut;
    cut + dots
  }

  /** The first piece of the sentence split: the text's leading sentence. */
  function LeadSentence(t: string): (s: string)
    ensures IsLeadSentence(t, s)
    ensures |t| > 0 ==> |s| > 0
  {
    SentenceSplit(t)[0]
  }

  /** The leading sentence of a stripped text, ellipsized past `maxLen`. */
  function LeadWithin(t: string, maxLen: nat): (r: string)
    ensures r == "" <==> t == ""
    ensures |r| <= maxLen + 3
    ensures t != "" && |LeadSentence(t)| <= maxLen ==> IsLeadSentence(t, r)
    ensures |LeadSentence(t)| > maxLen ==>
      EndsWith(r, "...") && |r| - 3 <= maxLen && r[..|r| - 3] == t[..|r| - 3]
  {
    if t == "" then ""
    else
      var s := LeadSentence(t);
      if |s| > maxLen then
        var e := Ellipsized(s, maxLen);
        assert t[..|s|][..|e| - 3] == t[..|e| - 3];
        e
      else s
  }

  /** `first_sentence(text, max_len)`: the first sentence of the stripped
      text, cut to `max_len` characters and marked with "..." when longer. */
  function FirstSentence(text: string, maxLen: nat): (r: string)
    ensures r == "" <==> Trim(text) == ""
    ensures |r| <= maxLen + 3
    ensures Trim(text) != "" && |LeadSentence(Trim(text))| <= maxLen ==> IsLeadSentence(Trim(text), r)
    ensures |LeadSentence(Trim(text))| > maxLen ==>
      EndsWith(r, "...") && |r| - 3 <= maxLen && r[..|r| - 3] == Trim(text)[..|r| - 3]
  {
    LeadWithin(Trim(text), maxLen)
  }

  /** A leading sentence within the limit is what `FirstSentence` returns. */
  lemma FirstSentencePicksLead(text: string, maxLen: nat, s: string)
    requires Trim(text) != "" && IsLeadSentence(Trim(text), s) && |s| <= maxLen
    ensures FirstSentence(text, maxLen) == s
  {
    var t := Trim(text);
    LeadSentenceUnique(t, LeadSentence(t), s);
    LeadSentenceUnique(t, FirstSentence(text, maxLen), s);
  }

  const FirstSentenceLimit: nat := 300

  // ---------------------------------------------------------------------
  // The project-level sentence
  // ---------------------------------------------------------------------

  /** The verbs that open an action bullet rather than a project description. */
  predicate IsActionVerb(w: string) {
    w in {"led", "designed", "implemented", "configured", "developed",
    "built", "created", "maintained", "managed", "troubleshot", "integrated", "optimized",
    "handled", "validated", "deployed", "architected"}
  }

  const LeadMarks: set<char> := {'•', '-', ' '}

  /** A character of `\w` (ASCII). */
  predicate IsWordChar(c: char) {
    IsLetter(c) || IsDigit(c) || c == '_'
  }

  /** `re.split(r'\W+', s)[0]`: the leading run of word characters. */
  function FirstWord(s: string): (r: string)
    ensures |r| <= |s| && r == s[..|r|]
    ensures forall i :: 0 <= i < |r| ==> IsWordChar(r[i])
    ensures |r| < |s| ==> !IsWordChar(s[|r|])
    decreases |s|
  {
    if |s| > 0 && IsWordChar(s[0]) then [s[0]] + FirstWord(s[1..]) else ""
  }

  /** A sentence describes the project rather than an action: longer than
      20 characters and not opening with an action verb. */
  predicate Describes(s: string) {
    |s| > 20 && !IsActionVerb(FirstWord(Lower(s)))
  }

  /** The text with its leading bullet marks dropped, stripped. */
  function BulletBody(text: string): string {
    Trim(LStrip(Trim(text), LeadMarks))
  }

  /** Sentence `k` is the first of `ss` that describes the project. */
  predicate FirstDescribing(ss: seq<string>, k: int) {
    0 <= k < |ss| && Describes(Trim(ss[k])) && forall j :: 0 <= j < k ==> !Describes(Trim(ss[j]))
  }

  /** The describing-sentence flag of every sentence. */
  function DescribeFlags(ss: seq<string>): (r: seq<bool>)
    ensures |r| == |ss|
    ensures forall k :: 0 <= k < |r| ==> r[k] == Describes(Trim(ss[k]))
  {
    seq(|ss|, k requires 0 <= k < |ss| => Describes(Trim(ss[k])))
  }

  /** The first describing sentence, when there is one. */
  function FirstDescribingIndex(ss: seq<string>): (r: Option<nat>)
    ensures r.Some? ==> FirstDescribing(ss, r.value)
    ensures r.None? ==> forall k :: 0 <= k < |ss| ==> !Describes(Trim(ss[k]))
  {
    var flags := DescribeFlags(ss);
    var f := FirstTrue(flags);
    if f.Some? then
      assert forall j :: 0 <= j < f.value ==> !flags[j];
      f
    else
      assert forall k :: 0 <= k < |ss| ==> !flags[k];
      None
  }

  /** `r` is the first sentence of `ss` that describes the project or,
      when none does, `fallback`. */
  predicate PicksDescribing(ss: seq<string>, r: string, fallback: string) {
    (exists k :: 0 <= k < |ss| && FirstDescribing(ss, k) && r == Trim(ss[k]))
    || ((forall k :: 0 <= k < |ss| ==> !Describes(Trim(ss[k]))) && r == fallback)
  }

  /** The first describing sentence of `t`, else its first sentence. */
  function DescribingOrFirst(t: string): (r: string)
    ensures PicksDescribing(SentenceSplit(t), r, FirstSentence(t, FirstSentenceLimit))
    ensures Trim(t) != "" ==> r != ""
  {
    var ss := SentenceSplit(t);
    match FirstDescribingIndex(ss)
    case Some(k) =>
      assert |Trim(ss[k])| > 20;
      Trim(ss[k])
    case None => FirstSentence(t, FirstSentenceLimit)
  }

  /** `project_level_summary(text)`: the first stripped sentence that
      describes the project, else the first sentence. */
  function ProjectLevelSummary(text: string): (r: string)
    ensures r == "" <==> BulletBody(text) == ""
    ensures BulletBody(text) != "" ==>
      PicksDescribing(SentenceSplit(BulletBody(text)), r, FirstSentence(BulletBody(text), FirstSentenceLimit))
  {
    var t := BulletBody(text);
    TrimIdempotent(LStrip(Trim(text), LeadMarks));
    if t == "" then "" else DescribingOrFirst(t)
  }

  /** The describing sentence that is picked is the first one. */
  lemma ProjectSentenceIsFirst(text: string, k: nat)
    requires BulletBody(text) != "" && FirstDescribing(SentenceSplit(BulletBody(text)), k)
    ensures ProjectLevelSummary(text) == Trim(SentenceSplit(BulletBody(text))[k])
  {
    var ss := SentenceSplit(BulletBody(text));
    var f := FirstDescribingIndex(ss);
    assert f.Some?;
  }

  // ---------------------------------------------------------------------
  // Technologies
  // ---------------------------------------------------------------------

  /** The known technologies. */
  predicate IsKnownTech(w: string) {
    w in {"aws", "azure", "gcp", "kubernetes", "docker", "terraform",
    "ansible", "jenkins", "gitlab", "github", "python", "java", "c#", ".net", "node", "react",
    "angular", "sql", "postgres", "mysql", "mssql", "oracle", "snowflake", "spark", "hadoop",
    "airflow", "kafka", "rabbitmq", "redis", "mongo", "elasticsearch", "kibana", "grafana",
    "prometheus", "tableau", "powerbi", "pandas", "numpy", "scikit", "tensorflow", "pytorch",
    "rest", "soap", "graphql", "grpc", "s3", "ec2", "rds", "eks", "aks", "gke", "servicenow",
    "workday", "scom", "sccm", "scorch", "scsm", "okta", "splunk", "sonarqube", "vault",
    "powershell", "bash", "linux", "windows", "nginx", "apache"}
  }

  /** The words never taken for a technology. */
  predicate IsStopWord(w: string) {
    w in {"the", "and", "for", "with", "using", "to", "of", "in", "on",
    "by", "a", "an", "at", "from", "via", "including", "system", "systems", "solution",
    "solutions", "service", "services", "tools", "technology", "technologies", "center", "desk",
    "team", "teams", "process", "processes", "module", "modules", "api", "apis", "reports"}
  }

  /** A character of `[A-Za-z0-9+.#-]`. */
  predicate IsTechChar(c: char) {
    IsLetter(c) || IsDigit(c) || c == '+' || c == '.' || c == '#' || c == '-'
  }

  /** The leading run of token characters. */
  function TechPrefix(s: string): (r: string)
    ensures |r| <= |s| && r == s[..|r|]
    ensures forall i :: 0 <= i < |r| ==> IsTechChar(r[i])
    decreases |s|
  {
    if |s| > 0 && IsTechChar(s[0]) then [s[0]] + TechPrefix(s[1..]) else ""
  }

  /** `re.findall(r'[A-Za-z0-9+.#-]+', s)`: the maximal token runs. */
  function TechTokens(s: string): (r: seq<string>)
    ensures forall k :: 0 <= k < |r| ==> |r[k]| > 0
    decreases |s|
  {
    if |s| == 0 then []
    else if !IsTechChar(s[0]) then TechTokens(s[1..])
    else
      var w := TechPrefix(s);
      [w] + TechTokens(s[|w|..])
  }

  /** The label a token contributes: its lower-case form when it is no stop
      word and is a known technology, a known skill, or an acronym. */
  function TechCandidate(w: string, vocab: set<string>): (r: Option<string>)
    ensures r.Some? ==> r.value == Lower(w) && !IsStopWord(Lower(w))
    ensures !IsStopWord(Lower(w)) && (IsKnownTech(Lower(w)) || Lower(w) in vocab) ==> r.Some?
  {
    var lw := Lower(w);
    if IsStopWord(lw) then None
    else if IsKnownTech(lw) || lw in vocab then Some(lw)
    else if IsUpperStr(w) && |w| >= 2 then Some(lw)
    else None
  }

  /** `x` is the label of some token of `tokens`. */
  predicate CandidateOf(tokens: seq<string>, vocab: set<string>, x: string) {
    exists k :: 0 <= k < |tokens| && TechCandidate(tokens[k], vocab) == Some(x)
  }

  /** The labels of the tokens, in token order, repeats included. */
  function Candidates(tokens: seq<string>, vocab: set<string>): (r: seq<string>)
    ensures forall x :: x in r <==> CandidateOf(tokens, vocab, x)
    ensures forall x :: x in r ==> IsLowerCase(x) && !IsStopWord(x)
  {
    var opts := seq(|tokens|, k requires 0 <= k < |tokens| => TechCandidate(tokens[k], vocab));
    var r := Somes(opts);
    forall x | x in r
      ensures CandidateOf(tokens, vocab, x) && IsLowerCase(x) && !IsStopWord(x)
    {
      var k :| 0 <= k < |tokens| && opts[k] == Some(x);
      LowerIsLowerCase(tokens[k]);
    }
    forall x | CandidateOf(tokens, vocab, x)
      ensures x in r
    {
      var k :| 0 <= k < |tokens| && TechCandidate(tokens[k], vocab) == Some(x);
      assert opts[k] == Some(x);
    }
    r
  }

  /** A label is its own dedup key. */
  function SameLabel(x: string): string {
    x
  }

  /** Each `r[k]` is a label of `cands` with no equal label before it:
      every entry stands where its label first occurs. */
  predicate FirstOccurrences(r: seq<string>, cands: seq<string>) {
    forall k :: 0 <= k < |r| ==>
      exists i :: 0 <= i < |cands| && cands[i] == r[k] && forall j :: 0 <= j < i ==> cands[j] != r[k]
  }

  /** The labels once each, in the order of their first occurrences. */
  function DedupLabels(cands: seq<string>): (r: seq<string>)
    ensures forall i, j :: 0 <= i < j < |r| ==> r[i] != r[j]
    ensures forall x :: x in r <==> x in cands
    ensures Subseq(r, cands)
    ensures FirstOccurrences(r, cands)
  {
    var r := DedupBy(cands, SameLabel);
    SubseqMembers(r, cands);
    LabelDedupFirsts(cands);
    r
  }

  /** Deduplicating labels keeps each at its first occurrence. */
  lemma LabelDedupFirsts(cands: seq<string>)
    ensures FirstOccurrences(DedupBy(cands, SameLabel), cands)
  {
    var r := DedupBy(cands, SameLabel);
    DedupByFirsts(cands, SameLabel);
    forall k | 0 <= k < |r|
      ensures exists i :: 0 <= i < |cands| && cands[i] == r[k] && forall j :: 0 <= j < i ==> cands[j] != r[k]
    {
      var i :| 0 <= i < |cands| && cands[i] == r[k] && FirstOfKey(cands, SameLabel, i);
      forall j | 0 <= j < i
        ensures cands[j] != r[k]
      {
        assert SameLabel(cands[j]) != SameLabel(cands[i]);
      }
    }
  }

  /** `extract_technologies(text)`: the candidate labels in first-occurrence
      order, each once. */
  function ExtractTechnologies(text: string, vocab: set<string>): (r: seq<string>)
    ensures forall i, j :: 0 <= i < j < |r| ==> r[i] != r[j]
    ensures forall x :: x in r <==> CandidateOf(TechTokens(text), vocab, x)
    ensures forall x :: x in r ==> IsLowerCase(x) && !IsStopWord(x)
    ensures text == "" ==> r == []
    ensures text != "" ==> Subseq(r, Candidates(TechTokens(text), vocab))
    ensures text != "" ==> FirstOccurrences(r, Candidates(TechTokens(text), vocab))
  {
    if text == "" then [] else DedupLabels(Candidates(TechTokens(text), vocab))
  }

  // ---------------------------------------------------------------------
  // Responsibilities
  // ---------------------------------------------------------------------

  const ResponsibilityStrip: set<char> := {' ', '•', '\t', '-', '\r'}

  /** The separator `\n|•|-\s+` at `i`, as its length (0 when none). */
  function ResponsibilityBreak(t: string, i: nat): (n: nat)
    requires i < |t|
    ensures i + n <= |t|
  {
    if t[i] == '\n' || t[i] == '•' then 1
    else if t[i] == '-' && i + 1 < |t| && IsSpace(t[i + 1]) then 1 + SpaceRun(t, i + 1)
    else 0
  }

  /** The first separator at or after `from`. */
  function ResponsibilityBreakFrom(t: string, from: nat): (r: Option<nat>)
    ensures r.Some? ==> from <= r.value < |t| && ResponsibilityBreak(t, r.value) > 0
    decreases |t| - from
  {
    if from >= |t| then None
    else if ResponsibilityBreak(t, from) > 0 then Some(from)
    else ResponsibilityBreakFrom(t, from + 1)
  }

  /** `re.split(r'\n|•|-\s+', t)`. */
  function ResponsibilitySplit(t: string): (r: seq<string>)
    ensures |r| >= 1
    decreases |t|
  {
    match ResponsibilityBreakFrom(t, 0)
    case None => [t]
    case Some(i) => [t[..i]] + ResponsibilitySplit(t[i + ResponsibilityBreak(t, i)..])
  }

  /** A responsibility is kept when something is left after stripping and
      it is no comma-separated technology list. */
  predicate KeepResponsibility(s: string) {
    s != "" && CountChar(s, ',') < 3
  }

  /** `bulletize_responsibilities(text)`. */
  function BulletizeResponsibilities(text: string): (r: seq<string>)
    ensures text == "" ==> r == []
    ensures forall x :: x in r ==> KeepResponsibility(x) && StrippedOf(x, ResponsibilityStrip)
    ensures Subseq(r, StripAll(ResponsibilitySplit(text), ResponsibilityStrip))
    ensures forall x :: x in StripAll(ResponsibilitySplit(text), ResponsibilityStrip) && KeepResponsibility(x) ==> x in r
  {
    if text == "" then []
    else Filter(StripAll(ResponsibilitySplit(text), ResponsibilityStrip), KeepResponsibility)
  }

  /** Every copy of a kept piece is a bullet, so repeated responsibilities
      are repeated bullets; a piece that is not kept never appears. */
  lemma BulletizeResponsibilitiesCount(text: string, x: string)
    ensures var pieces := StripAll(ResponsibilitySplit(text), ResponsibilityStrip);
      var r := BulletizeResponsibilities(text);
      (text != "" && KeepResponsibility(x) ==> multiset(r)[x] == multiset(pieces)[x])
      && (!KeepResponsibility(x) ==> multiset(r)[x] == 0)
  {
    FilterCount(StripAll(ResponsibilitySplit(text), ResponsibilityStrip), KeepResponsibility, x);
  }

  // ---------------------------------------------------------------------
  // The summary bulletiser
  // ---------------------------------------------------------------------

  const SummaryStrip: set<char> := {' ', '•', '-', '\t'}
  const MaxSummaryBullets: nat := 10

  /** `s.replace(c, '')`. */
  function RemoveChar(s: string, c: char): (r: string)
    ensures c !in r
    ensures |r| <= |s|
    decreases |s|
  {
    if |s| == 0 then "" else (if s[0] == c then "" else [s[0]]) + RemoveChar(s[1..], c)
  }

  /** The bullets of one line: its sentences, stripped of bullet marks,
      that keep at least two characters. */
  function LineBullets(line: string): (r: seq<string>)
    ensures forall x :: x in r ==> LongEnough(x)
  {
    var l := Strip(line, SummaryStrip);
    if l == "" then [] else Filter(StripAll(SentenceSplit(l), SummaryStrip), LongEnough)
  }

  /** A summary bullet keeps at least two characters. */
  predicate LongEnough(s: string) {
    |s| >= 2
  }

  /** Every candidate bullet of the cleaned summary, line by line. */
  function SummaryParts(lines: seq<string>): (r: seq<string>)
    ensures forall x :: x in r ==> LongEnough(x)
  {
    FlatMapAll(lines, LineBullets, LongEnough);
    FlatMap(lines, LineBullets)
  }

  /** The candidate bullets of a summary, before dedup and the cap. */
  function SummaryCandidates(summary: string): (r: seq<string>)
    ensures forall x :: x in r ==> LongEnough(x)
  {
    SummaryParts(Split(RemoveChar(Trim(summary), '\r'), {'\n'}))
  }

  /** The first candidates that are distinct ignoring case, at most ten. */
  function DistinctCapped(parts: seq<string>): (r: seq<string>)
    ensures |r| <= MaxSummaryBullets
    ensures Subseq(r, parts)
    ensures forall i, j :: 0 <= i < j < |r| ==> Lower(r[i]) != Lower(r[j])
    ensures |r| < MaxSummaryBullets ==> forall x :: x in parts ==> exists y :: y in r && Lower(y) == Lower(x)
  {
    var uniq := DedupBy(parts, Lower);
    SubseqOfPrefix(uniq, parts, Min(MaxSummaryBullets, |uniq|));
    Take(uniq, MaxSummaryBullets)
  }

  /** `_bulletize_summary(summary)`: the candidate bullets in order, the
      first of each ignoring case, at most ten; fewer than ten only when
      every candidate is represented. */
  function BulletizeSummary(summary: string): (r: seq<string>)
    ensures Trim(summary) == "" ==> r == []
    ensures |r| <= MaxSummaryBullets
    ensures forall x :: x in r ==> LongEnough(x)
    ensures forall i, j :: 0 <= i < j < |r| ==> Lower(r[i]) != Lower(r[j])
    ensures Trim(summary) != "" ==> Subseq(r, SummaryCandidates(summary))
    ensures Trim(summary) != "" && |r| < MaxSummaryBullets ==>
      forall x :: x in SummaryCandidates(summary) ==> exists y :: y in r && Lower(y) == Lower(x)
  {
    if Trim(summary) == "" then []
    else
      var parts := SummaryCandidates(summary);
      var r := DistinctCapped(parts);
      SubseqMembers(r, parts);
      r
  }

  /** Which candidates are kept: each bullet is the first candidate of its
      case-insensitive group, there are as many bullets as groups up to
      ten, and they are the first ten such candidates in order. */
  lemma DistinctCappedFirsts(parts: seq<string>)
    ensures var r := DistinctCapped(parts);
      (forall k :: 0 <= k < |r| ==> exists i :: 0 <= i < |parts| && parts[i] == r[k] && FirstOfKey(parts, Lower, i))
      && |r| == Min(MaxSummaryBullets, |KeysOf(parts, Lower)|)
      && r == Take(DedupBy(parts, Lower), MaxSummaryBullets)
  {
    var u := DedupBy(parts, Lower);
    DedupByFirsts(parts, Lower);
    var r := Take(u, MaxSummaryBullets);
    assert r == DistinctCapped(parts);
    forall k | 0 <= k < |r|
      ensures exists i :: 0 <= i < |parts| && parts[i] == r[k] && FirstOfKey(parts, Lower, i)
    {
      assert r[k] == u[k];
    }
  }

  /** The bulletiser keeps, of each case-insensitive group of candidates,
      the first, up to ten groups, in order. */
  lemma BulletizeSummaryFirsts(summary: string)
    requires Trim(summary) != ""
    ensures var r := BulletizeSummary(summary);
      var parts := SummaryCandidates(summary);
      (forall k :: 0 <= k < |r| ==> exists i :: 0 <= i < |parts| && parts[i] == r[k] && FirstOfKey(parts, Lower, i))
      && |r| == Min(MaxSummaryBullets, |KeysOf(parts, Lower)|)
      && r == Take(DedupBy(parts, Lower), MaxSummaryBullets)
  {
    DistinctCappedFirsts(SummaryCandidates(summary));
  }

  /** A line the bulletiser keeps as it is: one sentence of at least two
      characters, on one line, with no space or bullet mark at either end. */
  predicate SummaryBullet(s: string) {
    LongEnough(s) && OneSentence(s) && '\n' !in s && '\r' !in s
    && !IsSpace(s[0]) && !IsSpace(s[|s| - 1]) && StrippedOf(s, SummaryStrip)
  }

  /** `RemoveChar` keeps a string that lacks the character. */
  lemma {:induction false} RemoveCharAbsent(s: string, c: char)
    requires c !in s
    ensures RemoveChar(s, c) == s
    decreases |s|
  {
    if |s| > 0 {
      RemoveCharAbsent(s[1..], c);
      assert [s[0]] + s[1..] == s;
    }
  }

  /** A clean line is its own only bullet. */
  lemma LineBulletsClean(l: string)
    requires SummaryBullet(l)
    ensures LineBullets(l) == [l]
  {
    StripUnchanged(l, SummaryStrip);
    assert BreakFrom(l, 1).None?;
    assert SentenceSplit(l) == [l];
    assert StripAll([l], SummaryStrip) == [l];
    FilterKeepsAll([l], LongEnough);
  }

  /** Bullets written one per line need no trimming and hold no `\r`. */
  lemma CleanLinesText(bullets: seq<string>)
    requires |bullets| >= 1 && |bullets[0]| > 0 && |bullets[|bullets| - 1]| > 0
    requires !IsSpace(bullets[0][0]) && !IsSpace(bullets[|bullets| - 1][|bullets[|bullets| - 1]| - 1])
    requires forall k :: 0 <= k < |bullets| ==> '\r' !in bullets[k]
    ensures Trim(Join(bullets, "\n")) == Join(bullets, "\n") != ""
    ensures RemoveChar(Join(bullets, "\n"), '\r') == Join(bullets, "\n")
  {
    var text := Join(bullets, "\n");
    JoinHead(bullets, "\n");
    JoinLast(bullets, "\n");
    TrimUnchanged(text);
    JoinAvoids(bullets, "\n", '\r');
    RemoveCharAbsent(text, '\r');
  }

  /** Clean bullets written one per line are the candidates of the text. */
  lemma SummaryCandidatesLines(bullets: seq<string>)
    requires |bullets| >= 1
    requires forall k :: 0 <= k < |bullets| ==> SummaryBullet(bullets[k])
    ensures Trim(Join(bullets, "\n")) != ""
    ensures SummaryCandidates(Join(bullets, "\n")) == bullets
  {
    assert SummaryBullet(bullets[0]) && SummaryBullet(bullets[|bullets| - 1]);
    CleanLinesText(bullets);
    SplitJoin(bullets, '\n');
    forall k | 0 <= k < |bullets|
      ensures LineBullets(bullets[k]) == [bullets[k]]
    {
      LineBulletsClean(bullets[k]);
    }
    FlatMapKeeps(bullets, LineBullets);
  }

  /** Up to ten candidates already distinct ignoring case all stay. */
  lemma DistinctCappedKeeps(parts: seq<string>)
    requires |parts| <= MaxSummaryBullets
    requires forall i, j :: 0 <= i < j < |parts| ==> Lower(parts[i]) != Lower(parts[j])
    ensures DistinctCapped(parts) == parts
  {
    DedupDistinct(parts, Lower);
  }

  /** Up to ten clean bullets, distinct ignoring case, written one per line
      bulletize back to themselves. */
  lemma BulletizeSummaryLines(bullets: seq<string>)
    requires 1 <= |bullets| <= MaxSummaryBullets
    requires forall k :: 0 <= k < |bullets| ==> SummaryBullet(bullets[k])
    requires forall i, j :: 0 <= i < j < |bullets| ==> Lower(bullets[i]) != Lower(bullets[j])
    ensures BulletizeSummary(Join(bullets, "\n")) == bullets
  {
    SummaryCandidatesLines(bullets);
    DistinctCappedKeeps(bullets);
  }
}
