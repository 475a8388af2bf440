/** The document processor's extraction strategies: the weighted
    confidence score, the heuristic basic extraction, the summary parser,
    the advanced (rule-based) extraction that falls back to the basic one,
    and the strategy ladder LLM, then advanced, then basic.  File reading
    is left out: every strategy starts from the document's text. */
module DocumentProcessor {
  import opened Wrappers
  import opened Text
  import opened Seqs
  import opened Schemas
  import opened NlpExtractor

  // ---------------------------------------------------------------------
  // Confidence score
  // ---------------------------------------------------------------------

  /** Points for the contact fields: name 0.15, email 0.15, phone 0.10. */
  function ContactPoints(c: ContactInfo): real {
    (if Present(c.name) then 0.15 else 0.0)
    + (if Present(c.email) then 0.15 else 0.0)
    + (if Present(c.phone) then 0.10 else 0.0)
  }

  /** Points for `n` experience entries: 0.20 for any, 0.10 more for several. */
  function ExperiencePoints(n: nat): real {
    if n == 0 then 0.0 else if n == 1 then 0.20 else 0.30
  }

  /** Points for `n` education entries: 0.15 for any. */
  function EducationPoints(n: nat): real {
    if n == 0 then 0.0 else 0.15
  }

  /** Points for `n` skills: 0.10 for any, 0.05 more for more than three. */
  function SkillPoints(n: nat): real {
    if n == 0 then 0.0 else if n <= 3 then 0.10 else 0.15
  }

  /** `_calculate_confidence_score`: the running sum of the source, capped
      at 1.0.  The cap never applies: the weights add up to exactly 1.0. */
  function ConfidenceScore(c: ContactInfo, experience: seq<Experience>, education: seq<Education>,
                           skills: seq<string>): (r: Confidence)
    ensures r == ContactPoints(c) + ExperiencePoints(|experience|) + EducationPoints(|education|)
                 + SkillPoints(|skills|)
  {
    var s1 := if Present(c.name) then 0.15 else 0.0;
    var s2 := if Present(c.email) then s1 + 0.15 else s1;
    var s3 := if Present(c.phone) then s2 + 0.10 else s2;
    var s4 := if |experience| > 0 then s3 + 0.20 else s3;
    var s5 := if |experience| > 1 then s4 + 0.10 else s4;
    var s6 := if |education| > 0 then s5 + 0.15 else s5;
    var s7 := if |skills| > 0 then s6 + 0.10 else s6;
    var s8 := if |skills| > 3 then s7 + 0.05 else s7;
    if s8 <= 1.0 then s8 else 1.0
  }

  /** Nothing found scores 0.0; everything found scores exactly 1.0. */
  lemma ConfidenceExtremes(c: ContactInfo, experience: seq<Experience>, education: seq<Education>,
                           skills: seq<string>)
    ensures !Present(c.name) && !Present(c.email) && !Present(c.phone)
            && experience == [] && education == [] && skills == []
            ==> ConfidenceScore(c, experience, education, skills) == 0.0
    ensures Present(c.name) && Present(c.email) && Present(c.phone)
            && |experience| > 1 && |education| > 0 && |skills| > 3
            ==> ConfidenceScore(c, experience, education, skills) == 1.0
  {
  }

  /** `b` has every contact field `a` has. */
  predicate NoFewerContactFields(a: ContactInfo, b: ContactInfo) {
    (Present(a.name) ==> Present(b.name))
    && (Present(a.email) ==> Present(b.email))
    && (Present(a.phone) ==> Present(b.phone))
  }

  /** Finding more never lowers the score. */
  lemma ConfidenceMonotone(c: ContactInfo, experience: seq<Experience>, education: seq<Education>, skills: seq<string>,
                           c': ContactInfo, experience': seq<Experience>, education': seq<Education>, skills': seq<string>)
    requires NoFewerContactFields(c, c')
    requires |experience| <= |experience'| && |education| <= |education'| && |skills| <= |skills'|
    ensures ConfidenceScore(c, experience, education, skills) <= ConfidenceScore(c', experience', education', skills')
  {
  }

  /** Full contact details, one experience entry, one education entry and
      four skills score 0.90, above the 0.5 of the basic strategy. */
  lemma ConfidenceTypicalResume(c: ContactInfo, experience: seq<Experience>, education: seq<Education>,
                                skills: seq<string>)
    requires Present(c.name) && Present(c.email) && Present(c.phone)
    requires |experience| == 1 && |education| == 1 && |skills| == 4
    ensures ConfidenceScore(c, experience, education, skills) == 0.90
    ensures ConfidenceScore(c, experience, education, skills) > BasicConfidence
  {
  }

  // ---------------------------------------------------------------------
  // Basic extraction
  // ---------------------------------------------------------------------

  /** The four groups of a match of the basic phone pattern: country code,
      area code, exchange and line number. */
  datatype PhoneGroups = PhoneGroups(country: string, area: string, exchange: string, number: string)

  /** The two regular expressions of the basic strategy, as matchers. */
  datatype BasicPatterns = BasicPatterns(
    emails: string -> seq<string>,
    phones: string -> seq<PhoneGroups>)

  /** The confidence every basic result carries. */
  const BasicConfidence: real := 0.5

  /** At most this many skills are kept. */
  const MaxBasicSkills: nat := 10

  /** Role words that make a line a title candidate (substring, lower-case). */
  const TitleKeywords: seq<string> :=
    ["developer", "engineer", "administrator", "consultant", "analyst", "architect",
     "manager", "lead", "specialist", "scientist", "designer", "tester", "qa", "devops",
     "sdet", "full stack", "frontend", "backend", "cloud", "data", "ml", "ai", "security"]

  /** Characters stripped from both ends of a title candidate. */
  const TitleStripChars: set<char> := {' ', '(', ')', '•', '-', '\t'}

  /** Title candidates are longer lines than this are skipped. */
  const MaxTitleLength: nat := 70

  /** Words that mark a skills heading. */
  const BasicSkillKeywords: seq<string> := ["skills", "technical skills", "core competencies", "technologies"]

  /** Lines after the heading that mention one of these are not read. */
  const BasicSkillStopWords: seq<string> := ["experience", "education", "work"]

  /** Delimiters of the skills on one line. */
  const BasicSkillDelimiters: set<char> := {',', ';', '|', '•', '·'}

  /** The joined groups of the first phone match. */
  function BasicPhone(ms: seq<PhoneGroups>): (r: Option<string>)
    ensures r.Some? <==> |ms| > 0
    ensures r.Some? ==> r.value == ms[0].country + ms[0].area + ms[0].exchange + ms[0].number
  {
    if |ms| > 0 then Some(ms[0].country + ms[0].area + ms[0].exchange + ms[0].number) else None
  }

  /** The name: the first line, unless it holds an `@` or a digit. */
  function BasicName(lines: seq<string>): (r: Option<string>)
    ensures r.Some? <==> |lines| > 0 && '@' !in lines[0] && !HasDigit(lines[0])
    ensures r.Some? ==> r.value == lines[0]
  {
    if |lines| > 0 && '@' !in lines[0] && !HasDigit(lines[0]) then Some(lines[0]) else None
  }

  /** A line of the title window that yields a title: non-empty, at most 70
      characters, mentioning a role word, and without `@` or digits once
      parentheses, bullets, dashes and blanks are stripped from its ends. */
  predicate TitleLine(line: string) {
    var cleaned := Strip(line, TitleStripChars);
    line != "" && |line| <= MaxTitleLength && ContainsAny(Lower(line), TitleKeywords)
    && '@' !in cleaned && !HasDigit(cleaned)
  }

  /** Which lines may give the title: lines 1 to 5 that pass the test. */
  function TitleFlags(lines: seq<string>): (r: seq<bool>)
    ensures |r| == |lines|
    ensures forall i :: 0 <= i < |lines| ==> (r[i] <==> 1 <= i < 6 && TitleLine(lines[i]))
  {
    seq(|lines|, i requires 0 <= i < |lines| => 1 <= i < 6 && TitleLine(lines[i]))
  }

  /** The index of the line giving the title: the first of lines 1 to 5
      passing the test. */
  function TitleIndex(lines: seq<string>): (r: Option<nat>)
    ensures r.Some? ==> 1 <= r.value < |lines| && r.value < 6 && TitleLine(lines[r.value])
    ensures r.Some? ==> forall j :: 1 <= j < r.value ==> !TitleLine(lines[j])
    ensures r.None? <==> forall j :: 1 <= j < |lines| && j < 6 ==> !TitleLine(lines[j])
  {
    FirstTrue(TitleFlags(lines))
  }

  /** The title heuristic: the chosen line stripped of parentheses,
      bullets, dashes and blanks. */
  function BasicTitle(lines: seq<string>): (r: Option<string>)
    ensures r.Some? <==> TitleIndex(lines).Some?
    ensures r.Some? ==> r.value == Strip(lines[TitleIndex(lines).value], TitleStripChars)
    ensures r.Some? ==> '@' !in r.value && !HasDigit(r.value)
  {
    match TitleIndex(lines)
    case Some(i) => Some(Strip(lines[i], TitleStripChars))
    case None => None
  }

  /** A skills heading line. */
  predicate SkillHeadingLine(line: string) {
    ContainsAny(Lower(line), BasicSkillKeywords)
  }

  /** The line index of the first skills heading. */
  function SkillHeadingIndex(lines: seq<string>): (r: Option<nat>)
    ensures r.Some? ==> r.value < |lines| && SkillHeadingLine(lines[r.value])
    ensures r.Some? ==> forall j :: 0 <= j < r.value ==> !SkillHeadingLine(lines[j])
    ensures r.None? <==> forall j :: 0 <= j < |lines| ==> !SkillHeadingLine(lines[j])
  {
    var flags := seq(|lines|, j requires 0 <= j < |lines| => SkillHeadingLine(lines[j]));
    assert forall j :: 0 <= j < |lines| ==> (flags[j] <==> SkillHeadingLine(lines[j]));
    FirstTrue(flags)
  }

  /** A line after the heading that is read for skills. */
  predicate SkillSourceLine(line: string) {
    line != "" && !ContainsAny(Lower(line), BasicSkillStopWords)
  }

  /** The skills on one line: the stripped non-blank pieces between
      delimiters. */
  function LineSkills(line: string): (r: seq<string>)
    ensures forall k :: 0 <= k < |r| ==> forall i :: 0 <= i < |r[k]| ==> r[k][i] !in BasicSkillDelimiters
  {
    var pieces := Split(line, BasicSkillDelimiters);
    var r := StrippedNonBlank(pieces);
    StrippedNonBlankAvoids(pieces, BasicSkillDelimiters);
    r
  }

  /** The skills of the lines in `window` that are read, in order. */
  function WindowSkills(window: seq<string>): (r: seq<string>)
    ensures forall k :: 0 <= k < |r| ==> forall i :: 0 <= i < |r[k]| ==> r[k][i] !in BasicSkillDelimiters
    decreases |window|
  {
    if |window| == 0 then []
    else
      var here := if SkillSourceLine(window[0]) then LineSkills(window[0]) else [];
      here + WindowSkills(window[1..])
  }

  /** The skills of the basic strategy: from the (at most nine) lines after
      the first skills heading, before the cap of ten is applied. */
  function BasicSkillList(lines: seq<string>): (r: seq<string>)
    ensures SkillHeadingIndex(lines).None? ==> r == []
    ensures SkillHeadingIndex(lines).Some? ==>
      var i := SkillHeadingIndex(lines).value;
      r == WindowSkills(lines[i + 1..Min(i + 10, |lines|)])
  {
    match SkillHeadingIndex(lines)
    case None => []
    case Some(i) => WindowSkills(lines[i + 1..Min(i + 10, |lines|)])
  }

  /** The contact fields the basic strategy fills. */
  function BasicContact(text: string, lines: seq<string>, pats: BasicPatterns): (r: ContactInfo)
    ensures r.email == Head(pats.emails(text))
    ensures r.phone == BasicPhone(pats.phones(text))
    ensures r.name == BasicName(lines)
    ensures r.address.None? && r.linkedin.None? && r.website.None?
  {
    ContactInfo(BasicName(lines), Head(pats.emails(text)), BasicPhone(pats.phones(text)), None, None, None)
  }

  /** The data of the basic strategy, from the text and its stripped
      non-blank lines. */
  function BasicData(text: string, lines: seq<string>, pats: BasicPatterns): (r: ExtractedData)
    ensures r.confidence == BasicConfidence
    ensures r.experience == [] && r.education == [] && r.certifications == []
    ensures |r.skills| <= MaxBasicSkills
    ensures r.skills == Take(BasicSkillList(lines), MaxBasicSkills)
    ensures r.summary.None? && r.rawText == Some(text)
    ensures r.contact == BasicContact(text, lines, pats)
  {
    ExtractedData(BasicContact(text, lines, pats), None, [], [],
      Take(BasicSkillList(lines), MaxBasicSkills), [], Some(text), BasicConfidence)
  }

  /** `basic_data_extraction` as written: assigning the found title to the
      contact record raises, because the record has no `title` field. */
  function BasicDataExtractionAsWritten(text: string, lines: seq<string>, pats: BasicPatterns): (r: Result<ExtractedData>)
    ensures r.Failure? <==> BasicTitle(lines).Some?
    ensures r.Failure? ==> r.error == ValueError("title")
    ensures r.Success? ==> r.value == BasicData(text, lines, pats)
  {
    match BasicTitle(lines)
    case Some(title) =>
      Failure(SetContactAttr(BasicContact(text, lines, pats), "title", title).error)
    case None => Success(BasicData(text, lines, pats))
  }

  /** A plain role line passes the title test. */
  lemma SoftwareEngineerIsTitleLine()
    ensures TitleLine("Software Engineer")
  {
    var l := "Software Engineer";
    assert !HasDigit(l) by { assert forall i :: 0 <= i < |l| ==> !IsDigit(l[i]); }
    assert ContainsAny(Lower(l), TitleKeywords) by {
      assert Lower(l)[9..17] == "engineer";
      assert OccursAt(Lower(l), TitleKeywords[1], 9);
    }
    assert '@' !in l;
  }

  /** A second line that passes the title test and has nothing to strip
      is the title, whatever the first line is. */
  lemma TitleOnSecondLine(first: string, second: string)
    requires TitleLine(second)
    requires second[0] !in TitleStripChars && second[|second| - 1] !in TitleStripChars
    ensures BasicTitle([first, second]) == Some(second)
  {
    var lines := [first, second];
    assert lines[1] == second;
    assert TitleIndex(lines) == Some(1);
    StripUnchanged(second, TitleStripChars);
  }

  /** The title heuristic accepts an ordinary second line such as the one
      of the basic-extraction test (under a name line such as "John Doe"),
      so the extraction as written raises. */
  lemma TitleFoundOnSecondLine(text: string, name: string, pats: BasicPatterns)
    ensures BasicTitle([name, "Software Engineer"]) == Some("Software Engineer")
    ensures BasicDataExtractionAsWritten(text, [name, "Software Engineer"], pats) == Failure(ValueError("title"))
  {
    assert "Software Engineer"[0] !in TitleStripChars && "Software Engineer"[16] !in TitleStripChars;
    SoftwareEngineerIsTitleLine();
    TitleOnSecondLine(name, "Software Engineer");
  }

  /** The result of the corrected basic strategy: the data, and the title
      found beside it (the record has nowhere to keep it). */
  datatype BasicResult = BasicResult(data: ExtractedData, title: Option<string>)

  /** `basic_data_extraction` with the title kept beside the data: it
      never raises. */
  function BasicDataExtraction(text: string, pats: BasicPatterns): (r: BasicResult)
    ensures r.data.confidence == BasicConfidence
    ensures r.data.experience == [] && r.data.education == []
    ensures |r.data.skills| <= MaxBasicSkills
    ensures r.title == BasicTitle(NonBlankLines(text))
    ensures r.data.contact == BasicContact(text, NonBlankLines(text), pats)
    ensures r.data.skills == Take(BasicSkillList(NonBlankLines(text)), MaxBasicSkills)
    ensures r.data.summary.None? && r.data.rawText == Some(text) && r.data.certifications == []
    ensures BasicDataExtractionAsWritten(text, NonBlankLines(text), pats).Success? ==>
      r.data == BasicDataExtractionAsWritten(text, NonBlankLines(text), pats).value
  {
    var lines := NonBlankLines(text);
    BasicResult(BasicData(text, lines, pats), BasicTitle(lines))
  }

  // ---------------------------------------------------------------------
  // Summary
  // ---------------------------------------------------------------------

  /** Words that mark a summary heading (case-insensitive). */
  const SummaryHeadings: seq<string> :=
    ["summary", "profile summary", "objective", "profile", "about me", "career summary"]

  /** A summary heading line is shorter than this once stripped. */
  const MaxSummaryHeadingLength: nat := 80

  /** At most this many lines follow the heading in the summary window. */
  const SummaryWindow: nat := 14

  /** Words that may mark the next section. */
  const SummaryEndKeywords: seq<string> :=
    ["experience", "education", "skills", "technical skills", "work history", "employment",
     "certifications", "projects"]

  /** A stripped line that stops the summary: it mentions an end keyword,
      is shorter than 50 characters and is all upper-case or title-case. */
  predicate SummaryStop(l: string) {
    ContainsAny(Lower(l), SummaryEndKeywords) && |l| < 50 && (IsUpperStr(l) || IsTitle(l))
  }

  predicate SummaryHeadingLine(line: string) {
    ContainsAnyCI(line, SummaryHeadings) && |Trim(line)| < MaxSummaryHeadingLength
  }

  /** The index of the first summary heading line. */
  function SummaryStart(lines: seq<string>): (r: Option<nat>)
    ensures r.Some? ==> r.value < |lines| && SummaryHeadingLine(lines[r.value])
    ensures r.Some? ==> forall j :: 0 <= j < r.value ==> !SummaryHeadingLine(lines[j])
    ensures r.None? <==> forall j :: 0 <= j < |lines| ==> !SummaryHeadingLine(lines[j])
  {
    var flags := seq(|lines|, j requires 0 <= j < |lines| => SummaryHeadingLine(lines[j]));
    assert forall j :: 0 <= j < |lines| ==> (flags[j] <==> SummaryHeadingLine(lines[j]));
    FirstTrue(flags)
  }

  /** The summary loop over the window: blank lines are skipped, a stop
      line ends the loop, every other line is kept stripped. */
  function SummaryLines(window: seq<string>): (r: seq<string>)
    decreases |window|
  {
    if |window| == 0 then []
    else
      var l := Trim(window[0]);
      if l == "" then SummaryLines(window[1..])
      else if SummaryStop(l) then []
      else [l] + SummaryLines(window[1..])
  }

  /** The summary loop keeps a prefix of the stripped non-blank lines. */
  lemma {:induction false} SummaryLinesPrefix(window: seq<string>)
    ensures |SummaryLines(window)| <= |StrippedNonBlank(window)|
    ensures SummaryLines(window) == StrippedNonBlank(window)[..|SummaryLines(window)|]
    decreases |window|
  {
    if |window| > 0 {
      SummaryLinesPrefix(window[1..]);
      StrippedNonBlankCons(window);
      var l := Trim(window[0]);
      var r, r1 := SummaryLines(window), SummaryLines(window[1..]);
      var nb, nb1 := StrippedNonBlank(window), StrippedNonBlank(window[1..]);
      if l == "" {
        assert r == r1 && nb == nb1;
      } else if !SummaryStop(l) {
        assert r == [l] + r1 && nb == [l] + nb1;
        assert nb[..|r|] == [l] + nb1[..|r1|];
      }
    }
  }

  /** No kept line is a stop line. */
  lemma {:induction false} SummaryLinesNoStop(window: seq<string>)
    ensures forall x :: x in SummaryLines(window) ==> !SummaryStop(x)
    decreases |window|
  {
    if |window| > 0 {
      SummaryLinesNoStop(window[1..]);
      var l := Trim(window[0]);
      var r, r1 := SummaryLines(window), SummaryLines(window[1..]);
      if l == "" {
        assert r == r1;
      } else if !SummaryStop(l) {
        assert r == [l] + r1;
        assert forall x :: x in r ==> x == l || x in r1;
      }
    }
  }

  /** The loop ends early only at a stop line: the first stripped
      non-blank line it does not keep is one. */
  lemma {:induction false} SummaryLinesStopAt(window: seq<string>)
    ensures |SummaryLines(window)| < |StrippedNonBlank(window)| ==>
      SummaryStop(StrippedNonBlank(window)[|SummaryLines(window)|])
    decreases |window|
  {
    if |window| > 0 {
      SummaryLinesStopAt(window[1..]);
      StrippedNonBlankCons(window);
      var l := Trim(window[0]);
      var r, r1 := SummaryLines(window), SummaryLines(window[1..]);
      var nb, nb1 := StrippedNonBlank(window), StrippedNonBlank(window[1..]);
      if l == "" {
        assert r == r1 && nb == nb1;
      } else if SummaryStop(l) {
        assert r == [] && nb[0] == l;
      } else {
        assert r == [l] + r1 && nb == [l] + nb1;
      }
    }
  }

  /** `_extract_summary`: the kept lines of the window after the first
      summary heading, joined by single spaces; None without a heading or
      without kept lines. */
  function ExtractSummary(text: string): (r: Option<string>)
    ensures SummaryStart(Lines(text)).None? ==> r.None?
    ensures SummaryStart(Lines(text)).Some? ==>
      var s := SummaryStart(Lines(text)).value;
      var got := SummaryLines(Lines(text)[s + 1..Min(s + 1 + SummaryWindow, |Lines(text)|)]);
      (r.None? <==> got == []) && (r.Some? ==> r.value == Join(got, " "))
  {
    var lines := Lines(text);
    match SummaryStart(lines)
    case None => None
    case Some(s) =>
      var got := SummaryLines(lines[s + 1..Min(s + 1 + SummaryWindow, |lines|)]);
      if got == [] then None else Some(Join(got, " "))
  }

  /** The summary reads at most fourteen lines. */
  lemma {:induction false} SummaryLinesBound(window: seq<string>)
    ensures |SummaryLines(window)| <= |window|
    decreases |window|
  {
    if |window| > 0 {
      SummaryLinesBound(window[1..]);
    }
  }

  // ---------------------------------------------------------------------
  // Strategies
  // ---------------------------------------------------------------------

  /** Every matcher the rule-based strategies use, and the skill vocabulary
      (the extractor's own list is `Vocabulary`). */
  datatype Matchers = Matchers(
    contact: ContactPatterns,
    experience: ExperiencePatterns,
    degree: string -> Option<string>,
    basic: BasicPatterns,
    vocabulary: seq<string>)

  /** The body of `advanced_data_extraction`'s try block.  Nothing in it
      raises within the model: entry parsing catches its own exceptions and
      the splitters and finders are total. */
  function AdvancedParse(text: string, m: Matchers): (r: ExtractedData)
    ensures r.experience == ExtractExperience(text, m.experience)
    ensures r.contact == ExtractContactInfo(text, m.contact)
    ensures r.education == ExtractEducation(text, m.degree)
    ensures r.summary == ExtractSummary(text) && r.rawText == Some(text) && r.certifications == []
    ensures r.skills == ExtractSkillsWith(text, m.vocabulary)
    ensures r.confidence == ConfidenceScore(r.contact, r.experience, r.education, r.skills)
  {
    var contact := ExtractContactInfo(text, m.contact);
    var experience := ExtractExperience(text, m.experience);
    var education := ExtractEducation(text, m.degree);
    var skills := ExtractSkillsWith(text, m.vocabulary);
    ExtractedData(contact, ExtractSummary(text), experience, education, skills, [], Some(text),
      ConfidenceScore(contact, experience, education, skills))
  }

  /** Which strategy produced a result. */
  datatype Strategy = LlmStrategy | AdvancedStrategy | BasicStrategy

  datatype Outcome = Outcome(strategy: Strategy, data: ExtractedData)

  /** `advanced_data_extraction`.  `raised` is an exception thrown inside
      the try block by code outside the model (the regular-expression
      engine, the NLP pipeline); any such exception yields the basic result
      for the whole document.  The basic strategy as written raises in turn
      when it finds a title, and nothing catches that. */
  function AdvancedDataExtraction(text: string, m: Matchers, raised: Option<Error>): (r: Result<Outcome>)
    ensures r.Failure? <==>
      raised.Some? && BasicDataExtractionAsWritten(text, NonBlankLines(text), m.basic).Failure?
    ensures r.Success? ==> r.value.strategy != LlmStrategy
    ensures r.Success? ==> (r.value.strategy == BasicStrategy <==> raised.Some?)
    ensures r.Success? && r.value.strategy == AdvancedStrategy ==> r.value.data == AdvancedParse(text, m)
    ensures r.Success? && r.value.strategy == BasicStrategy ==>
      r.value.data == BasicDataExtractionAsWritten(text, NonBlankLines(text), m.basic).value
      && r.value.data.confidence == BasicConfidence
  {
    if raised.None? then Success(Outcome(AdvancedStrategy, AdvancedParse(text, m)))
    else
      var basic :- BasicDataExtractionAsWritten(text, NonBlankLines(text), m.basic);
      Success(Outcome(BasicStrategy, basic))
  }

  /** Within the model the advanced extraction never falls back: without
      an outside exception its outcome is the advanced parse. */
  lemma AdvancedNeverFallsBack(text: string, m: Matchers)
    ensures AdvancedDataExtraction(text, m, None) == Success(Outcome(AdvancedStrategy, AdvancedParse(text, m)))
  {
  }

  /** The advanced extraction with the corrected basic fallback: it always
      yields a result, the basic one carrying confidence 0.5. */
  function AdvancedDataExtractionCorrected(text: string, m: Matchers, raised: Option<Error>): (r: Outcome)
    ensures r.strategy != LlmStrategy
    ensures r.strategy == BasicStrategy <==> raised.Some?
    ensures r.strategy == AdvancedStrategy ==> r.data == AdvancedParse(text, m)
    ensures r.strategy == BasicStrategy ==>
      r.data == BasicDataExtraction(text, m.basic).data && r.data.confidence == BasicConfidence
    ensures AdvancedDataExtraction(text, m, raised).Success? ==> r == AdvancedDataExtraction(text, m, raised).value
  {
    if raised.None? then Outcome(AdvancedStrategy, AdvancedParse(text, m))
    else Outcome(BasicStrategy, BasicDataExtraction(text, m.basic).data)
  }

  /** The LLM options of a request: whether it was asked for, the key sent
      with the request, and whether a processor already exists. */
  datatype LlmRequest = LlmRequest(useLlm: bool, apiKey: Option<string>, hasProcessor: bool)

  /** The LLM path is tried only when requested and a key or a processor
      is available. */
  predicate TriesLlm(req: LlmRequest) {
    req.useLlm && (Present(req.apiKey) || req.hasProcessor)
  }

  /** The strategy ladder of `process_document` once the text is known:
      the LLM when requested and available, the advanced extraction when
      it is not or when the LLM call raises, and the basic extraction when
      the advanced one raises; a Failure when that raises too. */
  function ProcessText(text: string, req: LlmRequest, llm: string -> Result<ExtractedData>, m: Matchers,
                       raised: Option<Error>): (r: Result<Outcome>)
    ensures r.Success? && r.value.strategy == LlmStrategy <==> TriesLlm(req) && llm(text).Success?
    ensures r.Success? && r.value.strategy == LlmStrategy ==> r.value.data == llm(text).value
    ensures !(TriesLlm(req) && llm(text).Success?) ==> r == AdvancedDataExtraction(text, m, raised)
    ensures r.Failure? ==> raised.Some?
  {
    if TriesLlm(req) && llm(text).Success? then Success(Outcome(LlmStrategy, llm(text).value))
    else AdvancedDataExtraction(text, m, raised)
  }

  /** The ladder with the corrected basic fallback: it never fails, and a
      basic result carries confidence 0.5. */
  function ProcessTextCorrected(text: string, req: LlmRequest, llm: string -> Result<ExtractedData>, m: Matchers,
                                raised: Option<Error>): (r: Outcome)
    ensures r.strategy == LlmStrategy <==> TriesLlm(req) && llm(text).Success?
    ensures r.strategy == LlmStrategy ==> r.data == llm(text).value
    ensures r.strategy != LlmStrategy ==> r == AdvancedDataExtractionCorrected(text, m, raised)
    ensures r.strategy == BasicStrategy ==> r.data.confidence == BasicConfidence
    ensures ProcessText(text, req, llm, m, raised).Success? ==> r == ProcessText(text, req, llm, m, raised).value
  {
    if TriesLlm(req) && llm(text).Success? then Outcome(LlmStrategy, llm(text).value)
    else AdvancedDataExtractionCorrected(text, m, raised)
  }

  /** Without a request for the LLM, its outcome never matters. */
  lemma LlmNotRequestedIgnored(text: string, req: LlmRequest, llm1: string -> Result<ExtractedData>,
                               llm2: string -> Result<ExtractedData>, m: Matchers, raised: Option<Error>)
    requires !req.useLlm
    ensures ProcessText(text, req, llm1, m, raised) == ProcessText(text, req, llm2, m, raised)
  {
  }
}
