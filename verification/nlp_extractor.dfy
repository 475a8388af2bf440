/** The rule-based resume extractor: contact details, work experience,
    education and skills pulled out of plain text with heading searches and
    keyword heuristics.

    The regular-expression families whose exact matching is not the point
    (email, LinkedIn and website URLs, the company/position/date/description
    patterns of one experience entry, the entry splitters, the degree and
    date-token patterns) are parameters: functions from text to their
    matches.  Plain keyword patterns are modelled exactly, as lower-case
    substring tests. */
module NlpExtractor {
  import opened Wrappers
  import opened Text
  import opened Seqs
  import opened Schemas
  import opened Sections

  // ---------------------------------------------------------------------
  // Contact details
  // ---------------------------------------------------------------------

  /** The optional country-code group `(\+?\d{1,3}[-.\s]?)?` that all three
      phone patterns start with: at most five characters. */
  type PhonePrefix = s: string | |s| <= 5

  /** One match of a phone pattern: the whole match and its only group. */
  datatype PhoneMatch = PhoneMatch(whole: string, prefix: PhonePrefix)

  /** The regular-expression families of contact extraction, each giving
      its matches in text order. */
  datatype ContactPatterns = ContactPatterns(
    emails: string -> seq<string>,
    phones: seq<string -> seq<PhoneMatch>>,
    linkedins: string -> seq<string>,
    websites: string -> seq<string>)

  predicate IsPhoneChar(c: char) {
    IsDigit(c) || c == '+'
  }

  /** `re.sub(r'[^\d+]', '', s)`. */
  function CleanPhone(s: string): (r: string)
    ensures |r| <= |s|
    ensures forall i :: 0 <= i < |r| ==> IsPhoneChar(r[i])
    ensures forall i :: 0 <= i < |s| && IsPhoneChar(s[i]) ==> s[i] in r
  {
    Filter(s, IsPhoneChar)
  }

  /** A pattern's first match, cleaned, is long enough to be a number. */
  predicate AcceptsNumber(ms: seq<PhoneMatch>) {
    |ms| > 0 && |CleanPhone(ms[0].whole)| >= 10
  }

  /** What a phone pattern's loop takes as the candidate of a match: the
      whole match, or its first group. */
  function Candidate(m: PhoneMatch, wholeMatch: bool): string {
    if wholeMatch then m.whole else m.prefix
  }

  /** A pattern's first match yields a candidate of at least ten characters. */
  predicate AcceptsBy(ms: seq<PhoneMatch>, wholeMatch: bool) {
    |ms| > 0 && |CleanPhone(Candidate(ms[0], wholeMatch))| >= 10
  }

  /** The phone loop: patterns are tried in order and the first whose first
      match cleans to at least ten characters wins. */
  function FirstPhoneBy(text: string, finders: seq<string -> seq<PhoneMatch>>, wholeMatch: bool): (r: Option<string>)
    ensures r.Some? ==> |r.value| >= 10 && forall i :: 0 <= i < |r.value| ==> IsPhoneChar(r.value[i])
    ensures r.None? <==> forall k :: 0 <= k < |finders| ==> !AcceptsBy(finders[k](text), wholeMatch)
    decreases |finders|
  {
    if |finders| == 0 then None
    else
      var ms := finders[0](text);
      if AcceptsBy(ms, wholeMatch) then Some(CleanPhone(Candidate(ms[0], wholeMatch)))
      else
        var r := FirstPhoneBy(text, finders[1..], wholeMatch);
        assert forall k :: 1 <= k < |finders| ==> finders[k] == finders[1..][k - 1];
        r
  }

  /** Taking the first group, as `re.findall` does for a pattern with one
      group, no pattern is ever accepted: the group has at most five
      characters. */
  lemma {:induction false} PrefixNeverAccepted(text: string, finders: seq<string -> seq<PhoneMatch>>)
    ensures FirstPhoneBy(text, finders, false) == None
    decreases |finders|
  {
    if |finders| > 0 {
      PrefixNeverAccepted(text, finders[1..]);
    }
  }

  /** The phone loop as the source writes it: it never finds a number. */
  function FirstPhoneAsWritten(text: string, finders: seq<string -> seq<PhoneMatch>>): (r: Option<string>)
    ensures r.None?
  {
    PrefixNeverAccepted(text, finders);
    FirstPhoneBy(text, finders, false)
  }

  /** The phone loop with the whole match as the candidate. */
  function FirstPhone(text: string, finders: seq<string -> seq<PhoneMatch>>): (r: Option<string>)
    ensures r.Some? ==> |r.value| >= 10 && forall i :: 0 <= i < |r.value| ==> IsPhoneChar(r.value[i])
    ensures r.None? <==> forall k :: 0 <= k < |finders| ==> !AcceptsNumber(finders[k](text))
  {
    FirstPhoneBy(text, finders, true)
  }

  /** The earliest accepting pattern decides the number. */
  lemma {:induction false} FirstPhoneEarliest(text: string, finders: seq<string -> seq<PhoneMatch>>, k: nat)
    requires k < |finders| && AcceptsNumber(finders[k](text))
    requires forall j :: 0 <= j < k ==> !AcceptsNumber(finders[j](text))
    ensures FirstPhone(text, finders) == Some(CleanPhone(finders[k](text)[0].whole))
    decreases k
  {
    if k > 0 {
      assert forall j :: 1 <= j < |finders| ==> finders[j] == finders[1..][j - 1];
      FirstPhoneEarliest(text, finders[1..], k - 1);
    }
  }

  /** A text whose only phone match is a bare ten-digit number: the loop as
      written finds nothing, the corrected loop finds the number. */
  lemma PhonePrefixGroupLosesNumber()
    ensures FirstPhoneAsWritten("5551234567", [(t: string) => [PhoneMatch("5551234567", "")]]) == None
    ensures FirstPhone("5551234567", [(t: string) => [PhoneMatch("5551234567", "")]]) == Some("5551234567")
  {
    var s := "5551234567";
    var finders := [(t: string) => [PhoneMatch(s, "")]];
    assert forall i :: 0 <= i < |s| ==> IsPhoneChar(s[i]);
    FilterKeepsAll(s, IsPhoneChar);
    assert AcceptsNumber(finders[0](s));
    FirstPhoneEarliest(s, finders, 0);
  }

  /** Words that disqualify a line from being the name (case-insensitive). */
  const NameSkipWords: seq<string> :=
    ["@", "http", "www", ".com", "phone", "email", "address", "resume", "cv",
     "curriculum", "vitae", "profile", "summary"]

  /** Words that mark a job title rather than a person's name. */
  const NonNameWords: seq<string> :=
    ["senior", "junior", "developer", "engineer", "manager", "analyst",
     "consultant", "specialist", "director", "lead"]

  predicate IsNameJoiner(c: char) {
    c == '\'' || c == '-'
  }

  predicate NotNameJoiner(c: char) {
    !IsNameJoiner(c)
  }

  /** A word of more than one character starts with a capital and is
      alphabetic once apostrophes and hyphens are removed; one-character
      words pass. */
  predicate NameShapedWord(w: string) {
    |w| > 1 ==> IsUpperChar(w[0]) && IsAlpha(Filter(w, NotNameJoiner))
  }

  /** The strict name test on a stripped line. */
  predicate IsNameLine(l: string) {
    var ws := Words(l);
    l != "" && !ContainsAnyCI(l, NameSkipWords) && 2 <= |ws| <= 4
    && (forall k :: 0 <= k < |ws| ==> NameShapedWord(ws[k]))
    && (forall k :: 0 <= k < |ws| ==> Lower(ws[k]) !in NonNameWords)
  }

  /** The lenient fallback name test on a stripped line: at least two
      words, all longer than one character, a short line and none of
      `@`, `.com`, `http` (case-sensitive). */
  predicate IsLenientNameLine(l: string) {
    var ws := Words(l);
    l != "" && |ws| >= 2 && |l| < 60
    && !Contains(l, "@") && !Contains(l, ".com") && !Contains(l, "http")
    && forall k :: 0 <= k < |ws| ==> |ws[k]| > 1
  }

  predicate StrictNameRaw(raw: string) {
    IsNameLine(Trim(raw))
  }

  predicate LenientNameRaw(raw: string) {
    IsLenientNameLine(Trim(raw))
  }

  function StrictNameFlags(lines: seq<string>): (r: seq<bool>)
    ensures |r| == |lines|
    ensures forall j :: 0 <= j < |lines| ==> (r[j] <==> StrictNameRaw(lines[j]))
  {
    seq(|lines|, j requires 0 <= j < |lines| => StrictNameRaw(lines[j]))
  }

  function LenientNameFlags(lines: seq<string>): (r: seq<bool>)
    ensures |r| == |lines|
    ensures forall j :: 0 <= j < |lines| ==> (r[j] <==> LenientNameRaw(lines[j]))
  {
    seq(|lines|, j requires 0 <= j < |lines| => LenientNameRaw(lines[j]))
  }

  /** The choice among the first lines, given which lines pass the strict
      and which the lenient test: the first of the first five strict
      lines, else the first of the first three lenient lines. */
  function PickNameLine(strict: seq<bool>, lenient: seq<bool>): (r: Option<nat>)
    requires |strict| == |lenient|
    ensures r.Some? ==> r.value < |strict| && r.value < 5
    ensures r.Some? ==> strict[r.value] || (r.value < 3 && lenient[r.value])
    ensures r.Some? && strict[r.value] ==> forall j :: 0 <= j < r.value ==> !strict[j]
    ensures r.Some? && !strict[r.value] ==>
      (forall j :: 0 <= j < |strict| && j < 5 ==> !strict[j]) && forall j :: 0 <= j < r.value ==> !lenient[j]
    ensures r.None? <==>
      (forall j :: 0 <= j < |strict| && j < 5 ==> !strict[j]) && (forall j :: 0 <= j < |lenient| && j < 3 ==> !lenient[j])
  {
    match FirstTrue(Take(strict, 5))
    case Some(i) => Some(i)
    case None => FirstTrue(Take(lenient, 3))
  }

  /** Which line holds the name. */
  function NameLineIndex(lines: seq<string>): (r: Option<nat>)
    ensures r.Some? ==> r.value < |lines| && r.value < 5
    ensures r.Some? ==> StrictNameRaw(lines[r.value]) || (r.value < 3 && LenientNameRaw(lines[r.value]))
    ensures r.None? <==>
      (forall j :: 0 <= j < |lines| && j < 5 ==> !StrictNameRaw(lines[j]))
      && (forall j :: 0 <= j < |lines| && j < 3 ==> !LenientNameRaw(lines[j]))
  {
    PickNameLine(StrictNameFlags(lines), LenientNameFlags(lines))
  }

  /** A strict line wins over every lenient line, and the earliest strict
      line among the first five wins. */
  lemma NameLineEarliest(lines: seq<string>)
    requires NameLineIndex(lines).Some?
    ensures var i := NameLineIndex(lines).value;
      StrictNameRaw(lines[i]) ==> forall j :: 0 <= j < i ==> !StrictNameRaw(lines[j])
    ensures var i := NameLineIndex(lines).value;
      !StrictNameRaw(lines[i]) ==>
        (forall j :: 0 <= j < |lines| && j < 5 ==> !StrictNameRaw(lines[j]))
        && forall j :: 0 <= j < i ==> !LenientNameRaw(lines[j])
  {
    var st, le := StrictNameFlags(lines), LenientNameFlags(lines);
    assert NameLineIndex(lines) == PickNameLine(st, le);
  }

  /** The name: the chosen line, stripped. */
  function ExtractName(lines: seq<string>): (r: Option<string>)
    ensures r.Some? <==> NameLineIndex(lines).Some?
    ensures r.Some? ==> r.value == Trim(lines[NameLineIndex(lines).value])
    ensures r.Some? ==> IsNameLine(r.value) || IsLenientNameLine(r.value)
  {
    match NameLineIndex(lines)
    case Some(i) => Some(Trim(lines[i]))
    case None => None
  }

  /** A website candidate is neither an email nor a LinkedIn URL. */
  predicate IsWebsite(w: string) {
    '@' !in w && !Contains(Lower(w), "linkedin.com")
  }

  /** The first website candidate that is neither an email nor a LinkedIn
      URL. */
  function FirstWebsite(ws: seq<string>): (r: Option<string>)
    ensures r.Some? ==> r.value in ws && IsWebsite(r.value)
    ensures r.Some? ==> exists i :: 0 <= i < |ws| && r.value == ws[i] && IsWebsite(ws[i])
                                    && forall j :: 0 <= j < i ==> !IsWebsite(ws[j])
    ensures r.None? <==> forall j :: 0 <= j < |ws| ==> !IsWebsite(ws[j])
  {
    var flags := seq(|ws|, j requires 0 <= j < |ws| => IsWebsite(ws[j]));
    assert forall j :: 0 <= j < |ws| ==> (flags[j] <==> IsWebsite(ws[j]));
    match FirstTrue(flags)
    case Some(i) => Some(ws[i])
    case None => None
  }

  /** `extract_contact_info`: first email, first LinkedIn URL, first
      website that is not an email or LinkedIn, and the name.  The address
      is never filled, and neither is the phone: the phone loop as written
      never accepts a candidate. */
  function ExtractContactInfo(text: string, pats: ContactPatterns): (r: ContactInfo)
    ensures r.address.None? && r.phone.None?
    ensures r.phone == FirstPhoneAsWritten(text, pats.phones)
    ensures r.email.Some? <==> |pats.emails(text)| > 0
    ensures r.email.Some? ==> r.email.value == pats.emails(text)[0]
    ensures r.linkedin.Some? <==> |pats.linkedins(text)| > 0
    ensures r.linkedin.Some? ==> r.linkedin.value == pats.linkedins(text)[0]
    ensures r.website == FirstWebsite(pats.websites(text))
    ensures r.name == ExtractName(Lines(text))
  {
    ContactInfo(
      ExtractName(Lines(text)),
      Head(pats.emails(text)),
      FirstPhoneAsWritten(text, pats.phones),
      None,
      Head(pats.linkedins(text)),
      FirstWebsite(pats.websites(text)))
  }

  /** The contact details with the phone loop taking the whole match: the
      same record, with the first usable number filled in. */
  function ExtractContactInfoCorrected(text: string, pats: ContactPatterns): (r: ContactInfo)
    ensures r.phone == FirstPhone(text, pats.phones)
    ensures r.phone.Some? ==> |r.phone.value| >= 10
    ensures r.(phone := None) == ExtractContactInfo(text, pats)
  {
    ExtractContactInfo(text, pats).(phone := FirstPhone(text, pats.phones))
  }

  // ---------------------------------------------------------------------
  // Work experience
  // ---------------------------------------------------------------------

  /** What the pattern families of `_parse_single_experience` found in one
      entry: the company, the position, the two dates, and the description
      and responsibilities paragraphs (zero, one or two parts). */
  datatype ExperienceSignals = ExperienceSignals(
    company: Option<string>,
    position: Option<string>,
    startDate: Option<string>,
    endDate: Option<string>,
    descriptionParts: seq<string>)

  /** The regular-expression families of experience extraction: the six
      section splitters in the order they are applied (each one
      `re.split` with one pattern), the two project-block finders in order
      (each giving its matches' text), and the field patterns of one
      entry, where a Failure stands for an exception raised while applying
      them. */
  datatype ExperiencePatterns = ExperiencePatterns(
    splitters: seq<string -> seq<string>>,
    projectFinders: seq<string -> seq<string>>,
    signals: string -> Result<ExperienceSignals>)

  /** Headings that open the experience section. */
  const ExperienceHeadings: seq<string> :=
    ["experience", "professional experience", "employment history", "career history",
     "work history", "relevant work experience", "project experience", "professional background"]

  /** Section entries shorter than this (once stripped) are skipped. */
  const MinEntryLength: nat := 20

  /** Project blocks must be longer than 50 characters (once stripped). */
  const MinProjectLength: nat := 51

  /** The entry limit of `extract_experience`. */
  const MaxExperiences: nat := 5

  /** The description: the parts joined by spaces, or the placeholder
      "Project experience" when no part was found. */
  function DescriptionOf(parts: seq<string>): (r: string)
    ensures parts == [] ==> r == "Project experience"
    ensures |parts| == 1 ==> r == parts[0]
  {
    if |parts| > 0 then Join(parts, " ") else "Project experience"
  }

  /** The end date marks an ongoing position. */
  predicate MentionsCurrent(endDate: Option<string>) {
    Present(endDate)
    && (Contains(Lower(endDate.value), "present") || Contains(Lower(endDate.value), "current"))
  }

  /** Some signal is truthy, so an entry is produced. */
  predicate HasSignal(sg: ExperienceSignals) {
    Present(sg.company) || Present(sg.position) || Present(sg.startDate)
    || Present(sg.endDate) || DescriptionOf(sg.descriptionParts) != ""
  }

  /** Every field of an entry built by `_parse_single_experience` is filled. */
  predicate FilledEntry(e: Experience) {
    Present(e.title) && Present(e.company) && Present(e.startDate) && Present(e.endDate)
    && Present(e.description) && e.location == Some("")
  }

  /** `_parse_single_experience`: an entry with placeholders for missing
      fields whenever some signal was found; None when nothing was found or
      the patterns raised. */
  function ParseSingleExperience(text: string, pats: ExperiencePatterns): (r: Option<Experience>)
    ensures r.Some? <==> pats.signals(text).Success? && HasSignal(pats.signals(text).value)
    ensures r.Some? ==> FilledEntry(r.value)
    ensures r.Some? ==> (r.value.isCurrent <==> MentionsCurrent(pats.signals(text).value.endDate))
    ensures r.Some? && Present(pats.signals(text).value.company) ==> r.value.company == pats.signals(text).value.company
    ensures r.Some? && !Present(pats.signals(text).value.position) ==> r.value.title == Some("Position")
    ensures pats.signals(text).Success? && pats.signals(text).value.descriptionParts == [] ==> r.Some?
  {
    match pats.signals(text)
    case Failure(_) => None
    case Success(sg) =>
      var description := DescriptionOf(sg.descriptionParts);
      if HasSignal(sg) then
        Some(Experience(
          Some(OrElse(sg.position, "Position")),
          Some(OrElse(sg.company, "Company")),
          Some(""),
          Some(OrElse(sg.startDate, "Start Date")),
          Some(OrElse(sg.endDate, "End Date")),
          Some(if description != "" then description else "Job description"),
          MentionsCurrent(sg.endDate)))
      else None
  }

  /** A chunk is kept when, stripped, it is at least `minLen` long. */
  predicate KeptChunk(c: string, minLen: nat) {
    |Trim(c)| >= minLen
  }

  /** The chunk `c` is kept and, stripped, parses to `e`. */
  predicate ChunkGives(c: string, minLen: nat, pats: ExperiencePatterns, e: Experience) {
    |Trim(c)| >= minLen && ParseSingleExperience(Trim(c), pats) == Some(e)
  }

  /** One chunk: skipped when too short, otherwise parsed once stripped. */
  function ParseChunk(c: string, minLen: nat, pats: ExperiencePatterns): (r: Option<Experience>)
    ensures r.Some? ==> KeptChunk(c, minLen) && FilledEntry(r.value)
    ensures KeptChunk(c, minLen) ==> r == ParseSingleExperience(Trim(c), pats)
  {
    if KeptChunk(c, minLen) then ParseSingleExperience(Trim(c), pats) else None
  }

  /** The outcome of each chunk, in order. */
  function ChunkOpts(chunks: seq<string>, minLen: nat, pats: ExperiencePatterns): (r: seq<Option<Experience>>)
    ensures |r| == |chunks|
    ensures forall k :: 0 <= k < |chunks| ==> r[k] == ParseChunk(chunks[k], minLen, pats)
  {
    seq(|chunks|, k requires 0 <= k < |chunks| => ParseChunk(chunks[k], minLen, pats))
  }

  /** Parse every kept chunk and keep the entries found, in order. */
  function ParseChunks(chunks: seq<string>, minLen: nat, pats: ExperiencePatterns): (r: seq<Experience>)
    ensures |r| <= |chunks|
    ensures forall e :: e in r ==> exists k :: 0 <= k < |chunks| && ParseChunk(chunks[k], minLen, pats) == Some(e)
    ensures forall k :: 0 <= k < |chunks| && ParseChunk(chunks[k], minLen, pats).Some? ==>
      ParseChunk(chunks[k], minLen, pats).value in r
  {
    var opts := ChunkOpts(chunks, minLen, pats);
    var r := Somes(opts);
    assert forall e :: e in r ==> exists k :: 0 <= k < |opts| && opts[k] == Some(e);
    r
  }

  /** The outcomes of `a + b` are those of `a` followed by those of `b`. */
  lemma ChunkOptsAppend(a: seq<string>, b: seq<string>, minLen: nat, pats: ExperiencePatterns)
    ensures ChunkOpts(a + b, minLen, pats) == ChunkOpts(a, minLen, pats) + ChunkOpts(b, minLen, pats)
  {
    var ab := a + b;
    forall k | |a| <= k < |ab|
      ensures ab[k] == b[k - |a|]
    {
    }
  }

  /** Chunks are parsed independently: the entries of `a + b` are those of
      `a` followed by those of `b`. */
  lemma ParseChunksAppend(a: seq<string>, b: seq<string>, minLen: nat, pats: ExperiencePatterns)
    ensures ParseChunks(a + b, minLen, pats) == ParseChunks(a, minLen, pats) + ParseChunks(b, minLen, pats)
  {
    ChunkOptsAppend(a, b, minLen, pats);
    SomesAppend(ChunkOpts(a, minLen, pats), ChunkOpts(b, minLen, pats));
  }

  /** One chunk gives its entry when it parses, and nothing otherwise. */
  lemma ParseChunksOne(c: string, minLen: nat, pats: ExperiencePatterns)
    ensures ParseChunks([c], minLen, pats)
      == if ParseChunk(c, minLen, pats).Some? then [ParseChunk(c, minLen, pats).value] else []
  {
    var o := ChunkOpts([c], minLen, pats);
    assert o == [ParseChunk(c, minLen, pats)];
    assert o[1..] == [];
  }

  /** The entries are exactly what the kept chunks parse to. */
  lemma ParseChunksGives(chunks: seq<string>, minLen: nat, pats: ExperiencePatterns)
    ensures forall e :: e in ParseChunks(chunks, minLen, pats) ==>
      exists c :: c in chunks && ChunkGives(c, minLen, pats, e)
    ensures forall c :: c in chunks && KeptChunk(c, minLen) ==>
      (ParseSingleExperience(Trim(c), pats).Some? ==> ParseSingleExperience(Trim(c), pats).value in ParseChunks(chunks, minLen, pats))
  {
    var r := ParseChunks(chunks, minLen, pats);
    forall e | e in r
      ensures exists c :: c in chunks && ChunkGives(c, minLen, pats, e)
    {
      var k :| 0 <= k < |chunks| && ParseChunk(chunks[k], minLen, pats) == Some(e);
      assert ChunkGives(chunks[k], minLen, pats, e);
    }
    forall c | c in chunks && KeptChunk(c, minLen)
      ensures ParseSingleExperience(Trim(c), pats).Some? ==> ParseSingleExperience(Trim(c), pats).value in r
    {
      var k :| 0 <= k < |chunks| && chunks[k] == c;
      assert ParseChunk(chunks[k], minLen, pats) == ParseSingleExperience(Trim(c), pats);
    }
  }

  /** Every entry parsed from chunks has all its fields filled. */
  lemma ParsedChunksFilled(chunks: seq<string>, minLen: nat, pats: ExperiencePatterns)
    ensures forall e :: e in ParseChunks(chunks, minLen, pats) ==> FilledEntry(e)
  {
  }

  /** The splitting loop: every entry replaced, in place, by its pieces,
      one splitter after the other. */
  function SplitRounds(entries: seq<string>, splitters: seq<string -> seq<string>>): (r: seq<string>)
    decreases |splitters|
  {
    if |splitters| == 0 then entries else SplitRounds(FlatMap(entries, splitters[0]), splitters[1..])
  }

  /** The whole splitting loop treats entries independently: splitting a
      list of entries splits each one on its own. */
  lemma {:induction false} SplitRoundsAppend(a: seq<string>, b: seq<string>, splitters: seq<string -> seq<string>>)
    ensures SplitRounds(a + b, splitters) == SplitRounds(a, splitters) + SplitRounds(b, splitters)
    decreases |splitters|
  {
    if |splitters| > 0 {
      FlatMapAppend(a, b, splitters[0]);
      SplitRoundsAppend(FlatMap(a, splitters[0]), FlatMap(b, splitters[0]), splitters[1..]);
    }
  }

  /** Splitters that find no separator anywhere leave the entries as they are. */
  lemma {:induction false} SplitRoundsKeep(entries: seq<string>, splitters: seq<string -> seq<string>>)
    requires forall j, k :: 0 <= j < |splitters| && 0 <= k < |entries| ==> splitters[j](entries[k]) == [entries[k]]
    ensures SplitRounds(entries, splitters) == entries
    decreases |splitters|
  {
    if |splitters| > 0 {
      FlatMapKeeps(entries, splitters[0]);
      SplitRoundsKeep(entries, splitters[1..]);
    }
  }

  /** `_parse_experience_section`: split the section with every splitter in
      turn and parse the entries at least 20 characters long. */
  function ParseExperienceSection(section: string, pats: ExperiencePatterns): (r: seq<Experience>)
    ensures forall e :: e in r ==> FilledEntry(e)
    ensures r == ParseChunks(SplitRounds([section], pats.splitters), MinEntryLength, pats)
    ensures forall e :: e in r ==>
      exists c :: c in SplitRounds([section], pats.splitters) && ChunkGives(c, MinEntryLength, pats, e)
    ensures forall c :: c in SplitRounds([section], pats.splitters) && KeptChunk(c, MinEntryLength) ==>
      (ParseSingleExperience(Trim(c), pats).Some? ==> ParseSingleExperience(Trim(c), pats).value in r)
  {
    var r := ParseChunks(SplitRounds([section], pats.splitters), MinEntryLength, pats);
    ParsedChunksFilled(SplitRounds([section], pats.splitters), MinEntryLength, pats);
    ParseChunksGives(SplitRounds([section], pats.splitters), MinEntryLength, pats);
    r
  }

  /** The matches of every project finder, pattern by pattern. */
  function FindAll(text: string, finders: seq<string -> seq<string>>): (r: seq<string>)
    decreases |finders|
  {
    if |finders| == 0 then [] else finders[0](text) + FindAll(text, finders[1..])
  }

  /** `_extract_project_experience`: parse the project blocks longer than
      50 characters, those of the first pattern before those of the second. */
  function ProjectExperience(text: string, pats: ExperiencePatterns): (r: seq<Experience>)
    ensures forall e :: e in r ==> FilledEntry(e)
    ensures r == ParseChunks(FindAll(text, pats.projectFinders), MinProjectLength, pats)
    ensures forall e :: e in r ==>
      exists c :: c in FindAll(text, pats.projectFinders) && ChunkGives(c, MinProjectLength, pats, e)
    ensures forall c :: c in FindAll(text, pats.projectFinders) && |Trim(c)| > 50 ==>
      (ParseSingleExperience(Trim(c), pats).Some? ==> ParseSingleExperience(Trim(c), pats).value in r)
  {
    var r := ParseChunks(FindAll(text, pats.projectFinders), MinProjectLength, pats);
    ParsedChunksFilled(FindAll(text, pats.projectFinders), MinProjectLength, pats);
    ParseChunksGives(FindAll(text, pats.projectFinders), MinProjectLength, pats);
    r
  }

  /** The first finder's blocks are parsed before those of the others. */
  lemma ProjectFinderOrder(text: string, pats: ExperiencePatterns)
    requires |pats.projectFinders| > 0
    ensures ProjectExperience(text, pats)
      == ParseChunks(pats.projectFinders[0](text), MinProjectLength, pats)
         + ParseChunks(FindAll(text, pats.projectFinders[1..]), MinProjectLength, pats)
  {
    assert FindAll(text, pats.projectFinders) == pats.projectFinders[0](text) + FindAll(text, pats.projectFinders[1..]);
    ParseChunksAppend(pats.projectFinders[0](text), FindAll(text, pats.projectFinders[1..]), MinProjectLength, pats);
  }

  /** The entries of the experience section, none when there is no section. */
  function SectionExperience(section: string, pats: ExperiencePatterns): (r: seq<Experience>)
    ensures section == "" ==> r == []
    ensures forall e :: e in r ==> FilledEntry(e)
  {
    if section != "" then ParseExperienceSection(section, pats) else []
  }

  /** `extract_experience` once the experience section is known: section
      entries first, then project blocks, at most five in all. */
  function ExperienceFrom(section: string, text: string, pats: ExperiencePatterns): (r: seq<Experience>)
    ensures |r| <= MaxExperiences
    ensures forall i :: 0 <= i < |r| ==> FilledEntry(r[i])
    ensures r == Take(SectionExperience(section, pats) + ProjectExperience(text, pats), MaxExperiences)
  {
    var all := SectionExperience(section, pats) + ProjectExperience(text, pats);
    var r := Take(all, MaxExperiences);
    assert forall i :: 0 <= i < |r| ==> r[i] in all;
    r
  }

  /** Section entries come before project entries: up to five of them
      open the result, and project entries only fill what is left. */
  lemma SectionEntriesFirst(section: string, text: string, pats: ExperiencePatterns)
    ensures var sec := SectionExperience(section, pats);
      var r := ExperienceFrom(section, text, pats);
      r[..Min(|sec|, MaxExperiences)] == sec[..Min(|sec|, MaxExperiences)]
      && (|sec| < MaxExperiences ==>
            r[|sec|..] == Take(ProjectExperience(text, pats), MaxExperiences - |sec|))
  {
    TakeAppend(SectionExperience(section, pats), ProjectExperience(text, pats), MaxExperiences);
  }

  /** `extract_experience`: the entries of the experience section (when
      there is one) and then of the project blocks, at most five, every
      one with its fields filled. */
  function ExtractExperience(text: string, pats: ExperiencePatterns): (r: seq<Experience>)
    ensures |r| <= MaxExperiences
    ensures forall i :: 0 <= i < |r| ==> FilledEntry(r[i])
    ensures r == Take(SectionExperience(ExtractSection(text, ExperienceHeadings), pats)
                      + ProjectExperience(text, pats), MaxExperiences)
  {
    ExperienceFrom(ExtractSection(text, ExperienceHeadings), text, pats)
  }

  // ---------------------------------------------------------------------
  // Job entries (the line-oriented helpers)
  // ---------------------------------------------------------------------

  const JobTitleKeywords: seq<string> :=
    ["engineer", "developer", "manager", "analyst", "specialist", "coordinator",
     "director", "lead", "senior", "junior", "associate"]

  const CompanySuffixes: seq<string> :=
    ["inc", "llc", "corp", "ltd", "company", "technologies", "solutions"]

  /** `_looks_like_job_title`: a title keyword occurs, in any case. */
  predicate LooksLikeJobTitle(line: string) {
    ContainsAny(Lower(line), JobTitleKeywords)
  }

  /** `_looks_like_company`: a company suffix occurs, in any case. */
  predicate LooksLikeCompany(line: string) {
    ContainsAny(Lower(line), CompanySuffixes)
  }

  predicate StartsJobEntry(line: string) {
    LooksLikeJobTitle(line) || LooksLikeCompany(line)
  }

  /** A stripped, non-empty line. */
  predicate CleanLine(l: string) {
    |l| > 0 && !IsSpace(l[0]) && !IsSpace(l[|l| - 1]) && '\n' !in l
  }

  /** Lines without newlines strip to clean, non-empty lines. */
  lemma StrippedNonBlankClean(lines: seq<string>)
    requires forall k :: 0 <= k < |lines| ==> '\n' !in lines[k]
    ensures forall k :: 0 <= k < |StrippedNonBlank(lines)| ==> CleanLine(StrippedNonBlank(lines)[k])
  {
    var r := StrippedNonBlank(lines);
    forall k | 0 <= k < |r|
      ensures CleanLine(r[k])
    {
      assert r[k] in r;
      var j :| 0 <= j < |lines| && r[k] == Trim(lines[j]);
      TrimKeepsOut(lines[j], '\n');
    }
  }

  /** The stripped non-blank lines of a text. */
  function NonBlankLines(text: string): (r: seq<string>)
    ensures forall k :: 0 <= k < |r| ==> CleanLine(r[k])
  {
    StrippedNonBlankClean(Lines(text));
    StrippedNonBlank(Lines(text))
  }

  /** The grouping loop of `_split_job_entries`: a line that looks like a
      title or company starts a new group unless the current group is empty. */
  function GroupEntries(current: seq<string>, lines: seq<string>): (r: seq<seq<string>>)
    requires forall i :: 1 <= i < |current| ==> !StartsJobEntry(current[i])
    ensures Flatten(r) == current + lines
    ensures forall k :: 0 <= k < |r| ==> |r[k]| > 0
    ensures |current| > 0 ==> |r| > 0 && r[0][0] == current[0]
    ensures forall k :: 1 <= k < |r| ==> StartsJobEntry(r[k][0])
    ensures forall k :: 0 <= k < |r| ==> forall i :: 1 <= i < |r[k]| ==> !StartsJobEntry(r[k][i])
    decreases |lines|
  {
    if |lines| == 0 then
      if |current| > 0 then
        assert Flatten([current]) == current + Flatten([current][1..]);
        [current]
      else []
    else if |current| > 0 && StartsJobEntry(lines[0]) then
      var rest := GroupEntries([lines[0]], lines[1..]);
      var r := [current] + rest;
      assert r[1..] == rest;
      assert [lines[0]] + lines[1..] == lines;
      r
    else
      assert current + [lines[0]] + lines[1..] == current + lines;
      GroupEntries(current + [lines[0]], lines[1..])
  }

  /** The line groups of `_split_job_entries`. */
  function JobEntryGroups(text: string): (r: seq<seq<string>>)
    ensures Flatten(r) == NonBlankLines(text)
    ensures forall k :: 0 <= k < |r| ==> |r[k]| > 0
    ensures forall k :: 1 <= k < |r| ==> StartsJobEntry(r[k][0])
    ensures forall k :: 0 <= k < |r| ==> forall i :: 1 <= i < |r[k]| ==> !StartsJobEntry(r[k][i])
  {
    GroupEntries([], NonBlankLines(text))
  }

  /** `_split_job_entries`: each group joined back into one entry. */
  function SplitJobEntries(text: string): (r: seq<string>)
    ensures |r| == |JobEntryGroups(text)|
  {
    var groups := JobEntryGroups(text);
    seq(|groups|, k requires 0 <= k < |groups| => Join(groups[k], "\n"))
  }

  lemma {:induction false} FlattenMember(ss: seq<seq<string>>, k: nat, i: nat)
    requires k < |ss| && i < |ss[k]|
    ensures ss[k][i] in Flatten(ss)
    decreases |ss|
  {
    if k > 0 {
      FlattenMember(ss[1..], k - 1, i);
    }
  }

  /** Every entry splits back into exactly the lines of its group, and the
      groups together are the stripped non-blank lines of the text. */
  lemma SplitJobEntriesLines(text: string)
    ensures forall k :: 0 <= k < |SplitJobEntries(text)| ==> Lines(SplitJobEntries(text)[k]) == JobEntryGroups(text)[k]
  {
    var groups := JobEntryGroups(text);
    var entries := SplitJobEntries(text);
    forall k | 0 <= k < |entries|
      ensures Lines(entries[k]) == groups[k]
    {
      forall i | 0 <= i < |groups[k]|
        ensures '\n' !in groups[k][i]
      {
        FlattenMember(groups, k, i);
      }
      LinesJoin(groups[k]);
    }
  }

  /** The dates found so far while scanning an entry. */
  datatype DateScan = DateScan(start: Option<string>, end: Option<string>, current: bool)

  /** A line with exactly one date token that says the position is ongoing. */
  predicate OngoingLine(line: string, tokens: string -> seq<string>) {
    |tokens(line)| == 1 && (Contains(Lower(line), "present") || Contains(Lower(line), "current"))
  }

  /** The date loop of `_parse_job_entry`: the first line with two date
      tokens fixes both dates and stops; a one-date line that says
      present/current sets the start, "Present" and the ongoing flag. */
  function ScanDates(lines: seq<string>, tokens: string -> seq<string>, st: DateScan): (r: DateScan)
    ensures st.current ==> r.current
    ensures r.current <==> st.current || exists i :: 0 <= i < |lines| && OngoingLine(lines[i], tokens)
                                                && forall j :: 0 <= j < i ==> |tokens(lines[j])| < 2
    ensures forall i :: 0 <= i < |lines| && |tokens(lines[i])| >= 2 && (forall j :: 0 <= j < i ==> |tokens(lines[j])| < 2)
                 ==> r.start == Some(tokens(lines[i])[0]) && r.end == Some(tokens(lines[i])[1])
    ensures (forall i :: 0 <= i < |lines| ==> |tokens(lines[i])| == 0) ==> r == st
    decreases |lines|
  {
    if |lines| == 0 then st
    else
      var ds := tokens(lines[0]);
      assert forall k :: 1 <= k < |lines| ==> lines[k] == lines[1..][k - 1];
      if |ds| >= 2 then st.(start := Some(ds[0]), end := Some(ds[1]))
      else if OngoingLine(lines[0], tokens) then
        ScanDates(lines[1..], tokens, DateScan(Some(ds[0]), Some("Present"), true))
      else ScanDates(lines[1..], tokens, st)
  }

  predicate Undated(line: string, tokens: string -> seq<string>) {
    |tokens(line)| == 0
  }

  /** The lines without any date token, in order. */
  function UndatedLines(ls: seq<string>, tokens: string -> seq<string>): (r: seq<string>)
    ensures |r| <= |ls|
    ensures forall k :: 0 <= k < |r| ==> r[k] in ls && Undated(r[k], tokens)
    ensures forall k :: 0 <= k < |ls| && Undated(ls[k], tokens) ==> ls[k] in r
    decreases |ls|
  {
    if |ls| == 0 then []
    else
      var rest := UndatedLines(ls[1..], tokens);
      assert forall k :: 1 <= k < |ls| ==> ls[k] == ls[1..][k - 1];
      if Undated(ls[0], tokens) then [ls[0]] + rest else rest
  }

  /** The title and company of an entry: the first line is the title when
      it looks like one, the second then being the company; otherwise the
      first line is the company and the second the title if it looks like
      one. */
  function TitleAndCompany(ls: seq<string>): (r: (Option<string>, Option<string>))
    requires |ls| > 0
    ensures LooksLikeJobTitle(ls[0]) ==> r.0 == Some(ls[0]) && r.1 == (if |ls| > 1 then Some(ls[1]) else None)
    ensures !LooksLikeJobTitle(ls[0]) ==> r.1 == Some(ls[0])
    ensures !LooksLikeJobTitle(ls[0]) ==> (r.0.Some? <==> |ls| > 1 && LooksLikeJobTitle(ls[1]))
  {
    if LooksLikeJobTitle(ls[0]) then (Some(ls[0]), if |ls| > 1 then Some(ls[1]) else None)
    else (if |ls| > 1 && LooksLikeJobTitle(ls[1]) then Some(ls[1]) else None, Some(ls[0]))
  }

  /** `_parse_job_entry`: None exactly when the entry has no non-blank
      line; otherwise title and company from the first lines, the dates
      from the date scan, and the undated lines after the second as the
      description. */
  function ParseJobEntry(entry: string, tokens: string -> seq<string>): (r: Option<Experience>)
    ensures r.None? <==> NonBlankLines(entry) == []
    ensures r.Some? ==> (r.value.title, r.value.company) == TitleAndCompany(NonBlankLines(entry))
    ensures r.Some? ==> r.value.title.Some? || r.value.company.Some?
    ensures r.Some? ==> (r.value.description.None? <==> UndatedLines(Drop(NonBlankLines(entry), 2), tokens) == [])
  {
    var ls := NonBlankLines(entry);
    if |ls| == 0 then None
    else
      var tc := TitleAndCompany(ls);
      var dates := ScanDates(ls, tokens, DateScan(None, None, false));
      var described := UndatedLines(Drop(ls, 2), tokens);
      Some(Experience(tc.0, tc.1, None, dates.start, dates.end,
        if |described| > 0 then Some(Join(described, "\n")) else None, dates.current))
  }

  /** Undated clean lines joined with newlines split back into themselves. */
  lemma UndatedLinesJoin(ls: seq<string>, tokens: string -> seq<string>)
    requires forall k :: 0 <= k < |ls| ==> CleanLine(ls[k])
    requires UndatedLines(ls, tokens) != []
    ensures Lines(Join(UndatedLines(ls, tokens), "\n")) == UndatedLines(ls, tokens)
  {
    var described := UndatedLines(ls, tokens);
    forall k | 0 <= k < |described|
      ensures '\n' !in described[k]
    {
      var j :| 0 <= j < |ls| && ls[j] == described[k];
      assert CleanLine(ls[j]);
    }
    LinesJoin(described);
  }

  /** The description splits back into exactly the undated lines after the
      second. */
  lemma JobEntryDescriptionLines(entry: string, tokens: string -> seq<string>)
    requires ParseJobEntry(entry, tokens).Some?
    requires ParseJobEntry(entry, tokens).value.description.Some?
    ensures Lines(ParseJobEntry(entry, tokens).value.description.value)
         == UndatedLines(Drop(NonBlankLines(entry), 2), tokens)
  {
    var ls := NonBlankLines(entry);
    assert Drop(ls, 2) == ls[2..];
    UndatedLinesJoin(Drop(ls, 2), tokens);
  }

  // ---------------------------------------------------------------------
  // Education
  // ---------------------------------------------------------------------

  const EducationHeadings: seq<string> := ["education", "academic background", "qualifications"]

  /** Four digits start at position `i` of `s`. */
  predicate FourDigitsAt(s: string, i: int) {
    0 <= i <= |s| - 4 && IsDigits(s[i..i + 4])
  }

  /** No four-digit run starts in `[lo, hi)`. */
  predicate NoRunIn(s: string, lo: int, hi: int) {
    forall j :: lo <= j < hi ==> !FourDigitsAt(s, j)
  }

  /** Where the scan looks for the `k`-th run: at `i` for the first, just
      past the previous run for the others. */
  function RunFloor(ps: seq<nat>, k: nat, i: nat): nat
    requires k <= |ps|
  {
    if k == 0 then i else ps[k - 1] + 4
  }

  /** Where the left-to-right scan from `i` finds its four-digit runs. */
  function YearStarts(s: string, i: nat): (ps: seq<nat>)
    requires i <= |s|
    ensures forall k :: 0 <= k < |ps| ==> i <= ps[k] && ps[k] + 4 <= |s|
    decreases |s| - i
  {
    if i + 4 > |s| then []
    else if FourDigitsAt(s, i) then [i] + YearStarts(s, i + 4)
    else YearStarts(s, i + 1)
  }

  /** `ps` are the runs a scan from `i` should find: four-digit runs, each
      starting at the first one at or after the end of the previous run,
      with none left over after the last. */
  predicate ScanFacts(s: string, i: nat, ps: seq<nat>) {
    (forall k :: 0 <= k < |ps| ==> FourDigitsAt(s, ps[k]) && RunFloor(ps, k, i) <= ps[k])
    && (forall k :: 0 <= k < |ps| ==> NoRunIn(s, RunFloor(ps, k, i), ps[k]))
    && NoRunIn(s, RunFloor(ps, |ps|, i), |s|)
  }

  /** A run found at `i` goes in front of the runs found after it. */
  lemma ScanFactsHit(s: string, i: nat, rest: seq<nat>)
    requires FourDigitsAt(s, i) && ScanFacts(s, i + 4, rest)
    ensures ScanFacts(s, i, [i] + rest)
  {
    var ps := [i] + rest;
    assert RunFloor(ps, 0, i) == i == ps[0];
    forall k | 0 < k < |ps|
      ensures FourDigitsAt(s, ps[k]) && RunFloor(ps, k, i) <= ps[k] && NoRunIn(s, RunFloor(ps, k, i), ps[k])
    {
      FloorShift(ps, rest, k, i);
      assert ps[k] == rest[k - 1];
    }
    assert NoRunIn(s, RunFloor(ps, |ps|, i), |s|) by {
      FloorShift(ps, rest, |ps|, i);
    }
  }

  /** Past the first run, the floors of `[i] + rest` are those of `rest`
      scanned from `i + 4`. */
  lemma FloorShift(ps: seq<nat>, rest: seq<nat>, k: nat, i: nat)
    requires |ps| > 0 && ps == [ps[0]] + rest && ps[0] == i
    requires 0 < k <= |ps|
    ensures RunFloor(ps, k, i) == RunFloor(rest, k - 1, i + 4)
  {
    if k > 1 {
      assert ps[k - 1] == rest[k - 2];
    }
  }

  /** The runs found are four-digit runs, and none is found exactly when
      the text has none. */
  lemma ScanFactsRuns(s: string, ps: seq<nat>)
    requires ScanFacts(s, 0, ps)
    ensures forall k :: 0 <= k < |ps| ==> FourDigitsAt(s, ps[k])
    ensures ps == [] <==> NoRunIn(s, 0, |s|)
  {
    if ps != [] {
      assert FourDigitsAt(s, ps[0]);
    }
  }

  /** No run at `i`: the runs found from `i + 1` are those found from `i`. */
  lemma ScanFactsMiss(s: string, i: nat, ps: seq<nat>)
    requires !FourDigitsAt(s, i) && ScanFacts(s, i + 1, ps)
    requires forall k :: 0 <= k < |ps| ==> i + 1 <= ps[k]
    ensures ScanFacts(s, i, ps)
  {
    forall k | 0 < k <= |ps|
      ensures RunFloor(ps, k, i) == RunFloor(ps, k, i + 1)
    {
    }
    if |ps| > 0 {
      assert NoRunIn(s, i, ps[0]);
    } else {
      assert NoRunIn(s, i, |s|);
    }
  }

  /** What `Years` needs of the scan from the start. */
  lemma YearStartsRuns(s: string)
    ensures forall k :: 0 <= k < |YearStarts(s, 0)| ==> FourDigitsAt(s, YearStarts(s, 0)[k])
    ensures YearStarts(s, 0) == [] <==> NoRunIn(s, 0, |s|)
  {
    YearStartsScan(s, 0);
    ScanFactsRuns(s, YearStarts(s, 0));
  }

  /** The scan finds exactly the runs `ScanFacts` describes. */
  lemma {:induction false} YearStartsScan(s: string, i: nat)
    requires i <= |s|
    ensures ScanFacts(s, i, YearStarts(s, i))
    decreases |s| - i
  {
    if i + 4 > |s| {
      assert NoRunIn(s, i, |s|);
    } else if FourDigitsAt(s, i) {
      YearStartsScan(s, i + 4);
      ScanFactsHit(s, i, YearStarts(s, i + 4));
    } else {
      YearStartsScan(s, i + 1);
      ScanFactsMiss(s, i, YearStarts(s, i + 1));
    }
  }

  /** `re.findall(r'(\d{4})', s)`: the non-overlapping four-digit runs,
      left to right. */
  function Years(s: string): (r: seq<string>)
    ensures forall k :: 0 <= k < |r| ==> |r[k]| == 4 && IsDigits(r[k])
    ensures r == [] <==> forall i :: 0 <= i < |s| ==> !FourDigitsAt(s, i)
    ensures |r| == |YearStarts(s, 0)|
    ensures forall k :: 0 <= k < |r| ==> r[k] == s[YearStarts(s, 0)[k]..YearStarts(s, 0)[k] + 4]
  {
    var ps := YearStarts(s, 0);
    YearStartsRuns(s);
    seq(|ps|, k requires 0 <= k < |ps| => s[ps[k]..ps[k] + 4])
  }

  /** A word that counts towards an institution name. */
  predicate IsCapitalWord(w: string) {
    |w| > 2 && IsUpperChar(w[0])
  }

  /** The institution a line names: its capitalised words of three or more
      letters, when the line has two words and two such words. */
  function InstitutionOf(line: string): (r: Option<string>)
    ensures r.Some? ==> |Words(line)| >= 2 && |Filter(Words(line), IsCapitalWord)| >= 2
    ensures r.Some? ==> r.value == Join(Filter(Words(line), IsCapitalWord), " ")
  {
    var caps := Filter(Words(line), IsCapitalWord);
    if |Words(line)| >= 2 && |caps| >= 2 then Some(Join(caps, " ")) else None
  }

  predicate NamesInstitution(line: string) {
    InstitutionOf(line).Some?
  }

  predicate HasYear(line: string) {
    Years(line) != []
  }

  /** Which lines name an institution. */
  function InstitutionFlags(ls: seq<string>): (r: seq<bool>)
    ensures |r| == |ls|
    ensures forall j :: 0 <= j < |ls| ==> (r[j] <==> NamesInstitution(ls[j]))
  {
    seq(|ls|, j requires 0 <= j < |ls| => NamesInstitution(ls[j]))
  }

  /** Line `i` is the first that names an institution. */
  predicate FirstInstitutionLine(ls: seq<string>, i: int) {
    0 <= i < |ls| && NamesInstitution(ls[i]) && forall j :: 0 <= j < i ==> !NamesInstitution(ls[j])
  }

  /** The institution: from the first line that names one. */
  function InstitutionFrom(ls: seq<string>): (r: Option<string>)
    ensures r.Some? ==> exists i :: FirstInstitutionLine(ls, i) && InstitutionOf(ls[i]) == r
    ensures r.None? <==> forall i :: 0 <= i < |ls| ==> !NamesInstitution(ls[i])
  {
    var flags := InstitutionFlags(ls);
    match FirstTrue(flags)
    case Some(i) =>
      assert FirstInstitutionLine(ls, i);
      InstitutionOf(ls[i])
    case None => None
  }

  /** Line `i` is the first that holds a four-digit run. */
  predicate FirstYearLine(ls: seq<string>, i: int) {
    0 <= i < |ls| && HasYear(ls[i]) && forall j :: 0 <= j < i ==> !HasYear(ls[j])
  }

  /** The graduation year: the last year on the first line that has one. */
  function GraduationYear(ls: seq<string>): (r: Option<string>)
    ensures r.Some? ==> |r.value| == 4 && IsDigits(r.value)
    ensures r.Some? ==> exists i :: FirstYearLine(ls, i) && r.value == Years(ls[i])[|Years(ls[i])| - 1]
    ensures r.None? <==> forall i :: 0 <= i < |ls| ==> !HasYear(ls[i])
  {
    var flags := seq(|ls|, j requires 0 <= j < |ls| => HasYear(ls[j]));
    assert forall j :: 0 <= j < |ls| ==> (flags[j] <==> HasYear(ls[j]));
    match FirstTrue(flags)
    case Some(i) =>
      assert FirstYearLine(ls, i);
      var ys := Years(ls[i]);
      Some(ys[|ys| - 1])
    case None => None
  }

  /** The degree: the text matched on the last line that matches a degree
      pattern (each match overwrites the previous one). */
  function LastDegree(lines: seq<string>, degree: string -> Option<string>): (r: Option<string>)
    ensures r.None? <==> forall i :: 0 <= i < |lines| ==> degree(lines[i]).None?
    ensures r.Some? ==> exists i :: 0 <= i < |lines| && degree(lines[i]) == r
                           && forall j :: i < j < |lines| ==> degree(lines[j]).None?
    decreases |lines|
  {
    if |lines| == 0 then None
    else
      var last := lines[|lines| - 1];
      var init := lines[..|lines| - 1];
      assert forall i :: 0 <= i < |init| ==> init[i] == lines[i];
      if degree(last).Some? then degree(last) else LastDegree(init, degree)
  }

  /** `extract_education`: at most one entry, built from the stripped lines
      of the education section: the last degree match, the institution of
      the first line naming one, and the last year of the first line that
      has a year. */
  function ExtractEducation(text: string, degree: string -> Option<string>): (r: seq<Education>)
    ensures |r| <= 1
    ensures ExtractSection(text, EducationHeadings) == "" ==> r == []
    ensures var ls := NonBlankLines(ExtractSection(text, EducationHeadings));
      |r| == 1 <==> ExtractSection(text, EducationHeadings) != ""
                    && (Present(LastDegree(ls, degree)) || Present(InstitutionFrom(ls)))
    ensures |r| == 1 ==> Present(r[0].degree) || Present(r[0].institution)
    ensures |r| == 1 ==> r[0].location.None? && r[0].gpa.None? && r[0].honors.None?
    ensures |r| == 1 ==> r[0].degree == LastDegree(NonBlankLines(ExtractSection(text, EducationHeadings)), degree)
    ensures |r| == 1 ==> r[0].institution == InstitutionFrom(NonBlankLines(ExtractSection(text, EducationHeadings)))
    ensures |r| == 1 ==> r[0].graduationDate == GraduationYear(NonBlankLines(ExtractSection(text, EducationHeadings)))
  {
    var section := ExtractSection(text, EducationHeadings);
    if section == "" then []
    else
      var ls := NonBlankLines(section);
      var deg := LastDegree(ls, degree);
      var inst := InstitutionFrom(ls);
      var year := GraduationYear(ls);
      if Present(deg) || Present(inst) then [Education(deg, inst, None, year, None, None)] else []
  }

  /** The education entry reads exactly the stripped non-blank lines of the
      located section. */
  lemma EducationReadsSectionLines(text: string)
    requires SectionLines(Lines(text), EducationHeadings) != []
    ensures NonBlankLines(ExtractSection(text, EducationHeadings))
         == StrippedNonBlank(SectionLines(Lines(text), EducationHeadings))
  {
    SectionLinesRoundTrip(text, EducationHeadings);
  }

  // ---------------------------------------------------------------------
  // Skills
  // ---------------------------------------------------------------------

  const SkillHeadings: seq<string> :=
    ["skills", "core competencies", "technologies", "expertise", "tools and technologies"]

  /** Headings whose section is rescanned for vocabulary terms. */
  const SkillSummaryHeadings: seq<string> := ["profile summary", "professional summary", "summary"]

  /** Delimiters replaced by commas before splitting a skills section. */
  const SkillDelimiters: set<char> := {';', '|', '•', '·', '\n'}

  /** Tokens that are headings rather than skills. */
  const SkillStopWords: seq<string> := ["skills", "technologies", "expertise"]

  /** The maximum number of skills `extract_skills` returns. */
  const MaxSkills: nat := 20

  /** The fixed vocabulary searched for in the whole text. */
  const Vocabulary: seq<string> :=
    ["servicenow", "itsm", "itom", "hrsd", "service portal", "flow designer",
     "business rules", "client scripts", "ui policies", "glide script",
     "rest apis", "soap apis", "orchestration", "discovery", "event management",
     "incident management", "problem management", "change management",
     "service mapping", "hr case management", "csa", "cad", "cis-hrsd", "cis-itom",
     "javascript", "python", "java", "html", "css", "xml", "json",
     "angular", "react", "vue", "node.js", "typescript",
     "sql", "mysql", "postgresql", "mongodb", "oracle",
     "workday", "oracle cloud", "okta", "docusign", "adobe sign", "peoplesoft",
     "agile", "scrum", "sdlc", "waterfall", "itil",
     "aws", "azure", "gcp", "docker", "kubernetes", "jenkins", "ci/cd", "git",
     "integration hub", "performance analytics", "project management", "leadership"]

  /** A token kept from a skills section. */
  predicate KeepSkill(s: string) {
    1 < |s| < 50 && Lower(s) !in SkillStopWords
  }

  /** Characters that separate skill tokens. */
  const SkillBreaks: set<char> := SkillDelimiters + {','}

  /** A token as splitting leaves it: no separator inside and no blank at
      either end. */
  predicate TokenShape(t: string) {
    (forall i :: 0 <= i < |t| ==> t[i] !in SkillBreaks)
    && (|t| > 0 ==> !IsSpace(t[0]) && !IsSpace(t[|t| - 1]))
  }

  /** The stripped comma-separated tokens of a skills section, once the
      other delimiters have become commas. */
  function SkillTokens(text: string): (r: seq<string>)
    ensures forall k :: 0 <= k < |r| ==> TokenShape(r[k])
  {
    var replaced := ReplaceChars(text, SkillDelimiters, ',');
    var pieces := Split(replaced, {','});
    assert forall i :: 0 <= i < |replaced| ==> replaced[i] !in SkillDelimiters;
    var r := TrimAll(pieces);
    forall k | 0 <= k < |r|
      ensures TokenShape(r[k])
    {
      forall i | 0 <= i < |pieces[k]|
        ensures pieces[k][i] !in SkillBreaks
      {
        assert pieces[k][i] in replaced;
      }
      TrimAvoids(pieces[k], SkillBreaks);
    }
    r
  }

  /** `_parse_skills_section`: the tokens of reasonable length that are not
      heading words, in order. */
  function ParseSkillsSection(text: string): (r: seq<string>)
    ensures forall x :: x in r ==> KeepSkill(x) && TokenShape(x)
    ensures Subseq(r, SkillTokens(text))
    ensures forall t :: t in SkillTokens(text) && KeepSkill(t) ==> t in r
  {
    var tokens := SkillTokens(text);
    var r := Filter(tokens, KeepSkill);
    assert forall x :: x in tokens ==> TokenShape(x);
    r
  }

  /** `str.islower()`: some letter and no upper-case letter. */
  predicate IsLowerStr(s: string) {
    (exists i :: 0 <= i < |s| && IsLetter(s[i])) && IsLowerCase(s)
  }

  /** How a vocabulary term is reported: title-cased when all lower-case. */
  function SkillLabel(v: string): (r: string)
    ensures Lower(r) == Lower(v)
  {
    if IsLowerStr(v) then Title(v) else v
  }

  /** An all-lower-case term is reported title-cased; any other term is
      reported exactly as written. */
  lemma SkillLabelCase(v: string)
    ensures IsLowerStr(v) ==> IsTitle(SkillLabel(v))
    ensures !IsLowerStr(v) ==> SkillLabel(v) == v
  {
  }

  /** Some skill already present equals `s` up to case. */
  predicate HasSkillCI(skills: seq<string>, s: string) {
    exists i :: 0 <= i < |skills| && Lower(skills[i]) == Lower(s)
  }

  /** The vocabulary loop: append the label of every term occurring in
      `hay` unless a skill equal up to case is already there. */
  function ScanVocabulary(acc: seq<string>, vocab: seq<string>, hay: string): (r: seq<string>)
    ensures |acc| <= |r| && r[..|acc|] == acc
    ensures forall k :: |acc| <= k < |r| ==> forall i :: 0 <= i < k ==> Lower(r[i]) != Lower(r[k])
    decreases |vocab|
  {
    if |vocab| == 0 then acc
    else
      var tag := SkillLabel(vocab[0]);
      var acc' := if Contains(hay, Lower(vocab[0])) && !HasSkillCI(acc, tag) then acc + [tag] else acc;
      var r := ScanVocabulary(acc', vocab[1..], hay);
      assert r[..|acc|] == acc by {
        assert r[..|acc'|] == acc';
        assert acc'[..|acc|] == acc;
      }
      r
  }

  /** Every skill the scan adds is the label of a term occurring in `hay`. */
  lemma {:induction false} ScanVocabularySound(acc: seq<string>, vocab: seq<string>, hay: string)
    ensures forall k :: |acc| <= k < |ScanVocabulary(acc, vocab, hay)| ==>
      exists j :: 0 <= j < |vocab| && ScanVocabulary(acc, vocab, hay)[k] == SkillLabel(vocab[j])
                 && Contains(hay, Lower(vocab[j]))
    decreases |vocab|
  {
    if |vocab| > 0 {
      var tag := SkillLabel(vocab[0]);
      var acc' := if Contains(hay, Lower(vocab[0])) && !HasSkillCI(acc, tag) then acc + [tag] else acc;
      var r := ScanVocabulary(acc', vocab[1..], hay);
      assert r == ScanVocabulary(acc, vocab, hay);
      assert r[..|acc'|] == acc';
      ScanVocabularySound(acc', vocab[1..], hay);
      forall k | |acc| <= k < |r|
        ensures exists j :: 0 <= j < |vocab| && r[k] == SkillLabel(vocab[j]) && Contains(hay, Lower(vocab[j]))
      {
        if k < |acc'| {
          assert acc' == acc + [tag];
          assert r[k] == acc'[k] == tag;
          assert r[k] == SkillLabel(vocab[0]) && Contains(hay, Lower(vocab[0]));
        } else {
          var j :| 0 <= j < |vocab[1..]| && r[k] == SkillLabel(vocab[1..][j]) && Contains(hay, Lower(vocab[1..][j]));
          assert vocab[1..][j] == vocab[j + 1];
        }
      }
    } else {
      assert ScanVocabulary(acc, vocab, hay) == acc;
    }
  }

  /** Every term occurring in `hay` is represented, up to case, after the
      scan. */
  lemma {:induction false} ScanVocabularyComplete(acc: seq<string>, vocab: seq<string>, hay: string)
    ensures forall j :: 0 <= j < |vocab| && Contains(hay, Lower(vocab[j])) ==>
      HasSkillCI(ScanVocabulary(acc, vocab, hay), SkillLabel(vocab[j]))
    decreases |vocab|
  {
    if |vocab| > 0 {
      var tag := SkillLabel(vocab[0]);
      var acc' := if Contains(hay, Lower(vocab[0])) && !HasSkillCI(acc, tag) then acc + [tag] else acc;
      var r := ScanVocabulary(acc', vocab[1..], hay);
      assert r == ScanVocabulary(acc, vocab, hay);
      ScanVocabularyComplete(acc', vocab[1..], hay);
      forall j | 0 <= j < |vocab| && Contains(hay, Lower(vocab[j]))
        ensures HasSkillCI(r, SkillLabel(vocab[j]))
      {
        if j == 0 {
          var i :| 0 <= i < |acc'| && Lower(acc'[i]) == Lower(tag);
          assert r[..|acc'|] == acc';
          assert r[i] == acc'[i];
        } else {
          assert vocab[j] == vocab[1..][j - 1];
        }
      }
    }
  }

  /** A scan adds nothing when every term occurring in `hay` is already
      represented. */
  lemma {:induction false} ScanVocabularyNoNew(acc: seq<string>, vocab: seq<string>, hay: string)
    requires forall j :: 0 <= j < |vocab| && Contains(hay, Lower(vocab[j])) ==> HasSkillCI(acc, SkillLabel(vocab[j]))
    ensures ScanVocabulary(acc, vocab, hay) == acc
    decreases |vocab|
  {
    if |vocab| > 0 {
      assert forall j :: 1 <= j < |vocab| ==> vocab[j] == vocab[1..][j - 1];
      ScanVocabularyNoNew(acc, vocab[1..], hay);
    }
  }

  /** The skills of the dedicated section, if there is one. */
  function SectionSkills(text: string): (r: seq<string>)
    ensures forall k :: 0 <= k < |r| ==> KeepSkill(r[k])
  {
    var section := ExtractSection(text, SkillHeadings);
    if section != "" then ParseSkillsSection(section) else []
  }

  /** The skills found before the cap: section tokens, then vocabulary
      terms of the whole text, then vocabulary terms of the summary section. */
  function CollectSkills(text: string, vocab: seq<string>): (r: seq<string>)
  {
    var scanned := ScanVocabulary(SectionSkills(text), vocab, Lower(text));
    var summary := ExtractSection(text, SkillSummaryHeadings);
    if summary != "" then ScanVocabulary(scanned, vocab, Lower(summary)) else scanned
  }

  /** The summary rescan is redundant: every vocabulary term found in the
      summary section was already found in the whole text. */
  lemma SummaryRescanAddsNothing(text: string, vocab: seq<string>)
    ensures CollectSkills(text, vocab) == ScanVocabulary(SectionSkills(text), vocab, Lower(text))
  {
    var scanned := ScanVocabulary(SectionSkills(text), vocab, Lower(text));
    var summary := ExtractSection(text, SkillSummaryHeadings);
    if summary != "" {
      ScanVocabularyComplete(SectionSkills(text), vocab, Lower(text));
      forall j | 0 <= j < |vocab| && Contains(Lower(summary), Lower(vocab[j]))
        ensures HasSkillCI(scanned, SkillLabel(vocab[j]))
      {
        SectionInText(text, SkillSummaryHeadings, Lower(vocab[j]));
      }
      ScanVocabularyNoNew(scanned, vocab, Lower(summary));
    }
  }

  /** `extract_skills` over a vocabulary: at most twenty skills, the first
      of the section tokens followed by the vocabulary terms found in the
      whole text; the summary rescan contributes nothing. */
  function ExtractSkillsWith(text: string, vocab: seq<string>): (r: seq<string>)
    ensures |r| <= MaxSkills
    ensures r == Take(ScanVocabulary(SectionSkills(text), vocab, Lower(text)), MaxSkills)
  {
    SummaryRescanAddsNothing(text, vocab);
    Take(CollectSkills(text, vocab), MaxSkills)
  }

  /** `extract_skills` with its fixed vocabulary. */
  function ExtractSkills(text: string): seq<string> {
    ExtractSkillsWith(text, Vocabulary)
  }

  /** Each skill is a section token or the label of a vocabulary term that
      occurs in the text: the term itself, title-cased when it was all
      lower-case. */
  lemma ExtractSkillsSound(text: string, vocab: seq<string>)
    ensures forall k :: 0 <= k < |ExtractSkillsWith(text, vocab)| ==>
      ExtractSkillsWith(text, vocab)[k] in SectionSkills(text)
      || exists j :: 0 <= j < |vocab| && ExtractSkillsWith(text, vocab)[k] == SkillLabel(vocab[j])
                    && Contains(Lower(text), Lower(vocab[j]))
                    && (IsLowerStr(vocab[j]) ==> IsTitle(ExtractSkillsWith(text, vocab)[k]))
                    && (!IsLowerStr(vocab[j]) ==> ExtractSkillsWith(text, vocab)[k] == vocab[j])
  {
    var fromSection := SectionSkills(text);
    var scanned := ScanVocabulary(fromSection, vocab, Lower(text));
    var sk := ExtractSkillsWith(text, vocab);
    ScanVocabularySound(fromSection, vocab, Lower(text));
    forall k | 0 <= k < |sk|
      ensures sk[k] in fromSection
        || exists j :: 0 <= j < |vocab| && sk[k] == SkillLabel(vocab[j]) && Contains(Lower(text), Lower(vocab[j]))
    {
      assert sk[k] == scanned[k];
      if k < |fromSection| {
        assert scanned[..|fromSection|][k] == fromSection[k];
      }
    }
    forall j | 0 <= j < |vocab|
      ensures IsLowerStr(vocab[j]) ==> IsTitle(SkillLabel(vocab[j]))
      ensures !IsLowerStr(vocab[j]) ==> SkillLabel(vocab[j]) == vocab[j]
    {
      SkillLabelCase(vocab[j]);
    }
  }
}
