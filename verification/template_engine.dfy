/** The template engine's context builder: from extracted résumé data and
    the optional enrichment an LLM reply attached to it, the contact block,
    the summary and its bullets, the skills rows, the experience loop (the
    enrichment's detailed experience when present, otherwise the extracted
    experience made presentable), and the simple rows of the
    other-projects, education and certification tables; then the warnings
    about weak content. */
module TemplateEngine {
  import opened Wrappers
  import opened Text
  import opened Seqs
  import opened Schemas
  import opened Enrichment
  import opened TemplateText
  import opened TemplateContext

  /** One `skills_grouped` entry: a heading and its skills. */
  datatype SkillGroup = SkillGroup(heading: string, items: seq<string>)

  /** What the builder reads beyond the schema's fields: the enrichment
      dictionary, the grouped skills, the tools heading and the candidate's
      title. */
  datatype Extras = Extras(
    enrichment: EnrichmentData,
    skillsGrouped: seq<SkillGroup>,
    toolsTitle: Option<string>,
    title: Option<string>)

  /** The schema's ExtractedData carries none of them. */
  const NoExtras: Extras := Extras(NoEnrichment, [], None, None)

  const SummaryUnavailable: string := "Professional summary not available."
  const DefaultToolsTitle: string := "Professional Skills"

  // ---------------------------------------------------------------------
  // Contact and summary
  // ---------------------------------------------------------------------

  /** `contact_info`: "N/A" for a missing name, e-mail or phone, "" for the
      other fields, and the title stripped. */
  function ContactBlock(c: ContactInfo, title: Option<string>): (r: ContactRow)
    ensures r.name != "" && r.email != "" && r.phone != ""
    ensures Present(c.name) ==> r.name == c.name.value
    ensures !Present(c.name) ==> r.name == "N/A"
    ensures Present(c.email) ==> r.email == c.email.value
    ensures !Present(c.email) ==> r.email == "N/A"
    ensures Present(c.phone) ==> r.phone == c.phone.value
    ensures !Present(c.phone) ==> r.phone == "N/A"
    ensures r.title == Trim(OrElse(title, ""))
  {
    ContactRow(OrElse(c.name, "N/A"), OrElse(c.email, "N/A"), OrElse(c.phone, "N/A"),
      OrElse(c.address, ""), OrElse(c.linkedin, ""), OrElse(c.website, ""), Trim(OrElse(title, "")))
  }

  /** The reply's summary bullets are used when they are a list with some
      non-blank entry. */
  predicate UsesLlmBullets(e: EnrichmentData) {
    e.summaryBullets.Some? && exists i :: 0 <= i < |e.summaryBullets.value| && NonBlank(e.summaryBullets.value[i])
  }

  /** The summary bullets and the summary text behind them. */
  datatype SummaryParts = SummaryParts(bullets: seq<string>, text: string)

  /** The reply's bullets stripped, with their "; "-join as the text; or
      else the extracted summary bulletised, with the summary as the text. */
  function SummaryOf(summary: Option<string>, e: EnrichmentData): (r: SummaryParts)
    ensures UsesLlmBullets(e) ==> r.bullets == StrippedNonBlank(e.summaryBullets.value) && |r.bullets| > 0
    ensures UsesLlmBullets(e) ==> r.text == Join(r.bullets, "; ")
    ensures !UsesLlmBullets(e) ==> r.bullets == BulletizeSummary(OrElse(summary, ""))
    ensures !UsesLlmBullets(e) ==> r.text == OrElse(summary, "")
  {
    if UsesLlmBullets(e) then
      var xs := e.summaryBullets.value;
      var i :| 0 <= i < |xs| && NonBlank(xs[i]);
      StrippedNonBlankKeeps(xs, i);
      var bullets := StrippedNonBlank(xs);
      SummaryParts(bullets, Join(bullets, "; "))
    else
      SummaryParts(BulletizeSummary(OrElse(summary, "")), OrElse(summary, ""))
  }

  // ---------------------------------------------------------------------
  // Skills
  // ---------------------------------------------------------------------

  /** The skills table texts: the left column, the right column and the rows. */
  datatype SkillsParts = SkillsParts(left: string, right: string, rows: seq<SkillRow>)

  /** The group headings, in order. */
  function Headings(groups: seq<SkillGroup>): (r: seq<string>)
    ensures |r| == |groups|
    ensures forall i :: 0 <= i < |groups| ==> r[i] == groups[i].heading
  {
    seq(|groups|, i requires 0 <= i < |groups| => groups[i].heading)
  }

  /** Each group's non-blank skills joined with ", ", in order. */
  function GroupTexts(groups: seq<SkillGroup>): (r: seq<string>)
    ensures |r| == |groups|
    ensures forall i :: 0 <= i < |groups| ==> r[i] == JoinNonBlank(groups[i].items)
  {
    seq(|groups|, i requires 0 <= i < |groups| => JoinNonBlank(groups[i].items))
  }

  /** With grouped skills, one row per group: its heading and its non-blank
      skills joined with ", ", and the columns their newline-joins.  Without,
      a single "Skills" row of all skills joined with ", ", none when there
      are no skills. */
  function SkillsOf(groups: seq<SkillGroup>, skills: seq<string>): (r: SkillsParts)
    ensures |groups| > 0 ==> |r.rows| == |groups|
    ensures |groups| > 0 ==> forall i :: 0 <= i < |groups| ==>
      r.rows[i].left == groups[i].heading && r.rows[i].right == JoinNonBlank(groups[i].items)
    ensures |groups| > 0 ==> r.left == Join(Headings(groups), "\n")
    ensures |groups| > 0 ==> r.right == Join(GroupTexts(groups), "\n")
    ensures |groups| == 0 ==> r.left == "Skills" && r.right == Join(skills, ", ")
    ensures |groups| == 0 ==> (r.rows == [] <==> Join(skills, ", ") == "")
    ensures |groups| == 0 && r.rows != [] ==> r.rows == [SkillRow("Skills", Join(skills, ", "))]
  {
    if |groups| > 0 then
      var heads := Headings(groups);
      var texts := GroupTexts(groups);
      var rows := seq(|groups|, i requires 0 <= i < |groups| => SkillRow(heads[i], texts[i]));
      SkillsParts(Join(heads, "\n"), Join(texts, "\n"), rows)
    else
      var right := Join(skills, ", ");
      SkillsParts("Skills", right, if right != "" then [SkillRow("Skills", right)] else [])
  }

  // ---------------------------------------------------------------------
  // Simple rows from the enrichment
  // ---------------------------------------------------------------------

  /** `[str(x).strip() for x in xs if str(x).strip()]` over `a or b or []`. */
  function TechList(a: StrList, b: StrList): (r: seq<string>)
    ensures forall x :: x in r ==> x != "" && StrippedOf(x, Whitespace)
  {
    StrippedNonBlank(FirstList(a, b))
  }

  /** An `other_notable_projects` entry as a table row. */
  function ProjectRowOf(p: NotableProject): (r: ProjectRow)
    ensures r.technologies.Items?
    ensures Present(p.projectName) ==> r.name == p.projectName.value
    ensures !Present(p.projectName) ==> r.name == OrElse(p.name, "")
  {
    ProjectRow(OrElse(p.projectName, OrElse(p.name, "")), OrElse(p.duration, ""),
      Items(TechList(p.technologies, p.technology)))
  }

  /** An enrichment `education` entry as a table row. */
  function EducationRowOf(e: EducationEntry): (r: EducationRow)
    ensures r.SimpleEducation?
    ensures r.degree == OrElse(e.degree, OrElse(e.course, ""))
    ensures r.institution == OrElse(e.institution, OrElse(e.university, OrElse(e.board, "")))
    ensures r.graduationDate == OrElse(e.year, OrElse(e.graduationDate, ""))
  {
    SimpleEducation(OrElse(e.degree, OrElse(e.course, "")),
      OrElse(e.institution, OrElse(e.university, OrElse(e.board, ""))),
      OrElse(e.year, OrElse(e.graduationDate, "")))
  }

  /** The certification rows, numbered from 1 in order. */
  function CertRows(cs: seq<CertificationEntry>): (r: seq<CertRow>)
    ensures |r| == |cs|
    ensures forall i :: 0 <= i < |cs| ==> r[i].sno == i + 1
    ensures forall i :: 0 <= i < |cs| ==>
      r[i].authority == OrElse(cs[i].issuer, OrElse(cs[i].authority, OrElse(cs[i].name, "")))
  {
    seq(|cs|, i requires 0 <= i < |cs| =>
      CertRow(i + 1, OrElse(cs[i].issuer, OrElse(cs[i].authority, OrElse(cs[i].name, "")))))
  }

  // ---------------------------------------------------------------------
  // Experience from the enrichment
  // ---------------------------------------------------------------------

  const DurationSep: string := " - "

  /** The start and end of a stripped duration: split at the first " - ",
      both sides stripped; a duration without one is all start. */
  function DurationParts(duration: string): (r: (string, string))
  {
    var d := Trim(duration);
    match IndexOf(d, DurationSep)
    case Some(i) => (Trim(d[..i]), Trim(d[i + |DurationSep|..]))
    case None => (d, "")
  }

  /** Without " - " the whole stripped duration is the start; with one, the
      two sides are what lies before and after its first occurrence. */
  lemma DurationPartsSplit(duration: string)
    ensures !Contains(Trim(duration), DurationSep) ==> DurationParts(duration) == (Trim(duration), "")
    ensures Contains(Trim(duration), DurationSep) ==>
      DurationParts(duration) == (Trim(Before(Trim(duration), DurationSep)), Trim(After(Trim(duration), DurationSep)))
  {
    var d := Trim(duration);
    match IndexOf(d, DurationSep)
    case Some(i) =>
      assert Before(d, DurationSep) == d[..i];
      assert After(d, DurationSep) == d[i + |DurationSep|..];
    case None =>
  }

  /** The first " - " in start + " - " + end is the one between them when
      the start has no dash. */
  lemma SeparatorAfterStart(start: string, end: string)
    requires '-' !in start
    ensures IndexOf(start + DurationSep + end, DurationSep) == Some(|start|)
  {
    var d := start + DurationSep + end;
    assert d[|start|..|start| + |DurationSep|] == DurationSep;
    assert OccursAt(d, DurationSep, |start|);
    forall j | 0 <= j < |start|
      ensures !OccursAt(d, DurationSep, j)
    {
      assert d[j + 1] == if j + 1 < |start| then start[j + 1] else ' ';
    }
  }

  /** A duration written as start, " - ", end splits back into the two,
      when the start has no dash and neither has space at its outer end. */
  lemma DurationPartsJoin(start: string, end: string)
    requires |start| > 0 && |end| > 0
    requires '-' !in start
    requires !IsSpace(start[0]) && !IsSpace(start[|start| - 1])
    requires !IsSpace(end[0]) && !IsSpace(end[|end| - 1])
    ensures DurationParts(start + DurationSep + end) == (start, end)
  {
    var d := start + DurationSep + end;
    JoinedTrimmed(start, end);
    TrimUnchanged(start);
    TrimUnchanged(end);
    SeparatorAfterStart(start, end);
    assert d[..|start|] == start;
    assert d[|start| + |DurationSep|..] == end;
  }

  /** start + " - " + end has no space at its outer ends when neither side
      has. */
  lemma JoinedTrimmed(start: string, end: string)
    requires |start| > 0 && |end| > 0
    requires !IsSpace(start[0]) && !IsSpace(end[|end| - 1])
    ensures Trim(start + DurationSep + end) == start + DurationSep + end
  {
    var d := start + DurationSep + end;
    assert d[0] == start[0] && d[|d| - 1] == end[|end| - 1];
    TrimUnchanged(d);
  }

  /** The dates an entry shows, and whether it is current: the start or
      "—", the end or "Present", current when the end as given reads
      "present" in any case. */
  datatype Dates = Dates(start: string, end: string, isCurrent: bool)

  function DatesOf(duration: Option<string>): (r: Dates)
    ensures r.start != "" && r.end != ""
  {
    var (start, end) := DurationParts(OrElse(duration, ""));
    Dates(if start != "" then start else "—", if end != "" then end else "Present", Lower(end) == "present")
  }

  /** The entry's title: its project name, else its title, else "Project". */
  function EntryTitle(e: DetailedExperience): (r: string)
    ensures r != ""
    ensures Present(e.projectName) ==> r == e.projectName.value
  {
    OrElse(e.projectName, OrElse(e.title, "Project"))
  }

  /** The entry's project text: its project description, else its
      description, else its first key achievement. */
  function EntryText(e: DetailedExperience): (r: string)
    ensures Present(e.projectDescription) ==> r == e.projectDescription.value
    ensures !Present(e.projectDescription) && Present(e.description) ==> r == e.description.value
    ensures !Present(e.projectDescription) && !Present(e.description) && Truthy(e.keyAchievements) ==>
      r == AsList(e.keyAchievements)[0]
  {
    var achievements := FirstList(e.keyAchievements, Absent);
    var explicit := OrElse(e.projectDescription, OrElse(e.description, ""));
    if explicit == "" && |achievements| > 0 then achievements[0] else explicit
  }

  /** A detailed-experience entry as an entry of the experience loop. */
  function EnhancedRow(e: DetailedExperience): (r: ExperienceRow)
    ensures r.title != "" && r.startDate != "" && r.endDate != ""
    ensures r.description == r.projectDescription == EntryText(e)
    ensures r.startDate == DatesOf(e.duration).start && r.endDate == DatesOf(e.duration).end
    ensures r.isCurrent == DatesOf(e.duration).isCurrent
    ensures forall x :: x in r.technologies ==> NonBlank(x)
    ensures forall x :: x in r.responsibilities ==> x != ""
  {
    var dates := DatesOf(e.duration);
    ExperienceRow(
      EntryTitle(e),
      OrElse(e.organization, OrElse(e.company, "")),
      OrElse(e.location, ""),
      dates.start,
      dates.end,
      EntryText(e),
      EntryText(e),
      Filter(FirstList(e.technologiesUsed, e.technology), NonBlank),
      StrippedNonBlank(FirstList(e.keyAchievements, Absent)),
      dates.isCurrent)
  }

  /** A duration "start - end" gives those dates, and the entry is current
      exactly when the end reads "present" in any case. */
  lemma DatesOfJoin(start: string, end: string)
    requires |start| > 0 && |end| > 0 && '-' !in start
    requires !IsSpace(start[0]) && !IsSpace(start[|start| - 1])
    requires !IsSpace(end[0]) && !IsSpace(end[|end| - 1])
    ensures DatesOf(Some(start + DurationSep + end)) == Dates(start, end, Lower(end) == "present")
  {
    DurationPartsJoin(start, end);
  }

  /** Without a duration the entry shows "—" to "Present", yet is not
      marked current: the flag reads the end before its default. */
  lemma DatesOfMissing(duration: Option<string>)
    requires !Present(duration)
    ensures DatesOf(duration) == Dates("—", "Present", false)
  {
    assert Trim("") == "";
    assert !Contains("", DurationSep);
    assert Lower("") == "";
  }

  /** A detailed-experience entry beyond the fifth as an other-projects row. */
  function OverflowRow(e: DetailedExperience): (r: ProjectRow)
    ensures r.technologies.Items?
    ensures r.duration == OrElse(e.duration, "")
    ensures Present(e.projectName) ==> r.name == e.projectName.value
  {
    ProjectRow(OrElse(e.projectName, OrElse(e.title, "")), OrElse(e.duration, ""),
      Items(TechList(e.technologiesUsed, e.technology)))
  }

  /** How many entries the experience loop shows before the rest overflow
      into the other-projects table. */
  const ShownExperiences: nat := 5

  // ---------------------------------------------------------------------
  // Experience from the extracted data
  // ---------------------------------------------------------------------

  /** The skills vocabulary: every non-blank skill, grouped or flat,
      stripped and lower-cased. */
  function SkillsVocab(groups: seq<SkillGroup>, skills: seq<string>): (r: set<string>)
    ensures forall s :: s in skills && NonBlank(s) ==> Lower(Trim(s)) in r
    ensures forall g, s :: g in groups && s in g.items && NonBlank(s) ==> Lower(Trim(s)) in r
  {
    var grouped := set g, s | g in groups && s in g.items && NonBlank(s) :: Lower(Trim(s));
    var flat := set s | s in skills && NonBlank(s) :: Lower(Trim(s));
    grouped + flat
  }

  /** The extracted description cut to 200 characters, with "...". */
  function Shortened(desc: string): (r: string)
    ensures |r| <= 203 && EndsWith(r, "...")
    ensures |desc| <= 200 ==> r == desc + "..."
  {
    Take(desc, 200) + "..."
  }

  /** The project text of an extracted entry: "—" without a description,
      else its project-level sentence, else its first 200 characters. */
  function LegacyProjectDescription(desc: string): (r: string)
    ensures desc == "" ==> r == "—"
    ensures desc != "" && ProjectLevelSummary(desc) != "" ==> r == ProjectLevelSummary(desc)
    ensures desc != "" && ProjectLevelSummary(desc) == "" ==> r == Shortened(desc)
  {
    if desc != "" then
      var pl := ProjectLevelSummary(desc);
      if pl != "" then pl else Shortened(desc)
    else "—"
  }

  /** An extracted experience entry as an entry of the experience loop. */
  function LegacyRow(x: Experience, vocab: set<string>): (r: ExperienceRow)
    ensures r.title == OrElse(x.title, "Position Title") && r.company == OrElse(x.company, "Company Name")
    ensures r.startDate == OrElse(x.startDate, "Start Date") && r.endDate == OrElse(x.endDate, "End Date")
    ensures var desc := Trim(OrElse(x.description, ""));
      r.description == (if desc != "" then desc else "Job description not available.")
      && r.projectDescription == LegacyProjectDescription(desc)
      && r.technologies == ExtractTechnologies(desc, vocab)
      && r.responsibilities == BulletizeResponsibilities(desc)
    ensures r.isCurrent == x.isCurrent
  {
    var desc := Trim(OrElse(x.description, ""));
    ExperienceRow(
      OrElse(x.title, "Position Title"),
      OrElse(x.company, "Company Name"),
      OrElse(x.location, ""),
      OrElse(x.startDate, "Start Date"),
      OrElse(x.endDate, "End Date"),
      if desc != "" then desc else "Job description not available.",
      LegacyProjectDescription(desc),
      ExtractTechnologies(desc, vocab),
      BulletizeResponsibilities(desc),
      x.isCurrent)
  }

  /** An extracted education entry with its placeholders. */
  function LegacyEducation(x: Education): (r: EducationRow)
    ensures r.FullEducation?
    ensures r.degree != "" && r.institution != "" && r.graduationDate != ""
    ensures Present(x.degree) ==> r.degree == x.degree.value
    ensures Present(x.institution) ==> r.institution == x.institution.value
  {
    FullEducation(OrElse(x.degree, "Degree"), OrElse(x.institution, "Institution"), OrElse(x.location, ""),
      OrElse(x.graduationDate, "Graduation Date"), OrElse(x.gpa, ""), OrElse(x.honors, ""))
  }

  // ---------------------------------------------------------------------
  // The context
  // ---------------------------------------------------------------------

  /** The enrichment's detailed experience replaces the extracted one
      whenever it has an entry. */
  predicate UsesDetailed(x: Extras) {
    |x.enrichment.detailedExperience| > 0
  }

  /** The experience loop. */
  function ExperienceRows(d: ExtractedData, x: Extras): (r: seq<ExperienceRow>)
    ensures UsesDetailed(x) ==> |r| == |x.enrichment.detailedExperience|
    ensures UsesDetailed(x) ==> forall i :: 0 <= i < |r| ==> r[i] == EnhancedRow(x.enrichment.detailedExperience[i])
    ensures !UsesDetailed(x) ==> |r| == |d.experience|
    ensures !UsesDetailed(x) ==> forall i :: 0 <= i < |r| ==>
      r[i] == LegacyRow(d.experience[i], SkillsVocab(x.skillsGrouped, d.skills))
  {
    var det := x.enrichment.detailedExperience;
    if UsesDetailed(x) then seq(|det|, i requires 0 <= i < |det| => EnhancedRow(det[i]))
    else
      var vocab := SkillsVocab(x.skillsGrouped, d.skills);
      seq(|d.experience|, i requires 0 <= i < |d.experience| => LegacyRow(d.experience[i], vocab))
  }

  /** How many detailed entries lie beyond the fifth. */
  function OverflowCount(det: seq<DetailedExperience>): (n: nat)
    ensures |det| > ShownExperiences ==> n + ShownExperiences == |det|
    ensures |det| <= ShownExperiences ==> n == 0
  {
    if |det| > ShownExperiences then |det| - ShownExperiences else 0
  }

  /** The notable projects as rows, in order. */
  function ProjectRows(ps: seq<NotableProject>): (r: seq<ProjectRow>)
    ensures |r| == |ps|
    ensures forall i :: 0 <= i < |ps| ==> r[i] == ProjectRowOf(ps[i])
  {
    seq(|ps|, i requires 0 <= i < |ps| => ProjectRowOf(ps[i]))
  }

  /** The detailed entries beyond the fifth as rows, in order. */
  function OverflowRows(det: seq<DetailedExperience>): (r: seq<ProjectRow>)
    ensures |r| == OverflowCount(det)
    ensures forall k :: 0 <= k < |r| ==> r[k] == OverflowRow(det[ShownExperiences + k])
  {
    var over := if |det| > ShownExperiences then det[ShownExperiences..] else [];
    seq(|over|, k requires 0 <= k < |over| => OverflowRow(over[k]))
  }

  /** The other-projects rows: the enrichment's notable projects, then the
      detailed entries beyond the fifth. */
  function OtherProjectRows(x: Extras): (r: seq<ProjectRow>)
    ensures var ps := x.enrichment.otherNotableProjects;
      |r| == |ps| + OverflowCount(x.enrichment.detailedExperience)
      && (forall i :: 0 <= i < |ps| ==> r[i] == ProjectRowOf(ps[i]))
    ensures r[|x.enrichment.otherNotableProjects|..] == OverflowRows(x.enrichment.detailedExperience)
  {
    var simple := ProjectRows(x.enrichment.otherNotableProjects);
    var extra := OverflowRows(x.enrichment.detailedExperience);
    assert (simple + extra)[|simple|..] == extra;
    simple + extra
  }

  /** The education rows: the enrichment's entries, then, when the
      extracted experience is used, the extracted education. */
  function EducationRows(d: ExtractedData, x: Extras): (r: seq<EducationRow>)
    ensures var es := x.enrichment.education;
      |r| == |es| + (if UsesDetailed(x) then 0 else |d.education|)
      && (forall i :: 0 <= i < |es| ==> r[i] == EducationRowOf(es[i]))
      && (!UsesDetailed(x) ==> forall i :: 0 <= i < |d.education| ==> r[|es| + i] == LegacyEducation(d.education[i]))
  {
    var es := x.enrichment.education;
    var simple := seq(|es|, i requires 0 <= i < |es| => EducationRowOf(es[i]));
    if UsesDetailed(x) then simple
    else simple + seq(|d.education|, i requires 0 <= i < |d.education| => LegacyEducation(d.education[i]))
  }

  /** `_prepare_template_context`. */
  function BuildContext(d: ExtractedData, x: Extras): (r: Context)
    ensures r.contact == ContactBlock(d.contact, x.title)
    ensures r.summaryBullets == SummaryOf(d.summary, x.enrichment).bullets
    ensures r.summary != ""
    ensures r.summary == SummaryUnavailable <==> SummaryOf(d.summary, x.enrichment).text in {"", SummaryUnavailable}
    ensures SummaryOf(d.summary, x.enrichment).text != "" ==> r.summary == SummaryOf(d.summary, x.enrichment).text
    ensures r.skills == d.skills
    ensures r.toolsTitle == OrElse(x.toolsTitle, DefaultToolsTitle)
    ensures r.experience == ExperienceRows(d, x)
    ensures r.education == EducationRows(d, x)
    ensures r.otherProjects == OtherProjectRows(x)
    ensures r.certificationRows == CertRows(x.enrichment.certifications)
    ensures r.skillsRows == SkillsOf(x.skillsGrouped, d.skills).rows
    ensures r.skillsLeftLines == SkillsOf(x.skillsGrouped, d.skills).left
    ensures r.skillsRightLines == SkillsOf(x.skillsGrouped, d.skills).right
  {
    var sp := SummaryOf(d.summary, x.enrichment);
    var sk := SkillsOf(x.skillsGrouped, d.skills);
    Context(
      ContactBlock(d.contact, x.title),
      if sp.text != "" then sp.text else SummaryUnavailable,
      sp.bullets,
      ExperienceRows(d, x),
      EducationRows(d, x),
      d.skills,
      OrElse(x.toolsTitle, DefaultToolsTitle),
      sk.left,
      sk.right,
      sk.rows,
      OtherProjectRows(x),
      CertRows(x.enrichment.certifications))
  }

  /** Each detailed entry beyond the fifth has its row among the other
      projects, after the notable ones. */
  lemma OverflowKept(x: Extras, i: nat)
    requires ShownExperiences <= i < |x.enrichment.detailedExperience|
    ensures OtherProjectRows(x)[|x.enrichment.otherNotableProjects| + i - ShownExperiences]
      == OverflowRow(x.enrichment.detailedExperience[i])
  {
    var det := x.enrichment.detailedExperience;
    var n := |x.enrichment.otherNotableProjects|;
    var k := i - ShownExperiences;
    var other := OtherProjectRows(x);
    assert other[n..][k] == OverflowRow(det[ShownExperiences + k]);
    SliceAt(other, n, k);
  }

  /** No detailed entry is lost: each one is in the experience loop, and
      each one beyond the fifth is also in the other-projects table. */
  lemma DetailedEntriesKept(d: ExtractedData, x: Extras, i: nat)
    requires i < |x.enrichment.detailedExperience|
    ensures EnhancedRow(x.enrichment.detailedExperience[i]) in BuildContext(d, x).experience
    ensures i >= ShownExperiences ==>
      OverflowRow(x.enrichment.detailedExperience[i]) in BuildContext(d, x).otherProjects
  {
    var rows := ExperienceRows(d, x);
    assert rows[i] == EnhancedRow(x.enrichment.detailedExperience[i]);
    if i >= ShownExperiences {
      OverflowKept(x, i);
      var other := OtherProjectRows(x);
      assert other[|x.enrichment.otherNotableProjects| + i - ShownExperiences] in other;
    }
  }

  // ---------------------------------------------------------------------
  // Warnings
  // ---------------------------------------------------------------------

  const NameWarning: string := "Missing candidate name"
  const EmailWarning: string := "Missing email"
  const SummaryWarning: string := "Missing professional summary"
  const BulletsWarning: string := "Summary not bulletized or missing"
  const SkillsWarning: string := "Skills section is empty"

  /** Every warning, in the order they are checked. */
  const AllWarnings: seq<string> := [NameWarning, EmailWarning, SummaryWarning, BulletsWarning, SkillsWarning]

  predicate MissingName(ctx: Context) {
    ctx.contact.name == "" || ctx.contact.name == "N/A"
  }

  predicate MissingEmail(ctx: Context) {
    ctx.contact.email == "" || ctx.contact.email == "N/A"
  }

  predicate MissingSummary(ctx: Context) {
    ctx.summary == "" || Contains(Lower(ctx.summary), "not available")
  }

  /** `_collect_warnings`: one message per weak part of the context, in a
      fixed order. */
  function CollectWarnings(ctx: Context): (r: seq<string>)
    ensures NameWarning in r <==> MissingName(ctx)
    ensures EmailWarning in r <==> MissingEmail(ctx)
    ensures SummaryWarning in r <==> MissingSummary(ctx)
    ensures BulletsWarning in r <==> ctx.summaryBullets == []
    ensures SkillsWarning in r <==> ctx.skills == []
    ensures Subseq(r, AllWarnings)
  {
    var flags := [MissingName(ctx), MissingEmail(ctx), MissingSummary(ctx), ctx.summaryBullets == [], ctx.skills == []];
    var r := Picked(AllWarnings, flags);
    PickedMembers(AllWarnings, flags);
    assert AllWarnings[0] == NameWarning && AllWarnings[1] == EmailWarning && AllWarnings[2] == SummaryWarning;
    assert AllWarnings[3] == BulletsWarning && AllWarnings[4] == SkillsWarning;
    r
  }

  /** The items whose flag is set, in order. */
  function Picked(items: seq<string>, flags: seq<bool>): (r: seq<string>)
    requires |items| == |flags|
    ensures Subseq(r, items)
    decreases |items|
  {
    if |items| == 0 then []
    else if flags[0] then [items[0]] + Picked(items[1..], flags[1..])
    else
      var rest := Picked(items[1..], flags[1..]);
      SubseqSkip(rest, items);
      rest
  }

  /** For distinct items, an item is picked exactly when its flag is set. */
  lemma {:induction false} PickedMembers(items: seq<string>, flags: seq<bool>)
    requires |items| == |flags|
    requires forall i, j :: 0 <= i < j < |items| ==> items[i] != items[j]
    ensures forall i :: 0 <= i < |items| ==> (items[i] in Picked(items, flags) <==> flags[i])
    decreases |items|
  {
    if |items| > 0 {
      PickedMembers(items[1..], flags[1..]);
      forall i | 0 <= i < |items|
        ensures items[i] in Picked(items, flags) <==> flags[i]
      {
        if i > 0 {
          assert items[1..][i - 1] == items[i];
          assert items[i] != items[0];
        } else {
          PickedAvoids(items[1..], flags[1..], items[0]);
        }
      }
    }
  }

  /** Nothing outside the items is picked. */
  lemma {:induction false} PickedAvoids(items: seq<string>, flags: seq<bool>, x: string)
    requires |items| == |flags|
    requires x !in items
    ensures x !in Picked(items, flags)
    decreases |items|
  {
    if |items| > 0 {
      PickedAvoids(items[1..], flags[1..], x);
    }
  }

  /** The built context warns about the name exactly when the extracted
      name is missing or reads "N/A", and likewise for the e-mail. */
  lemma ContactWarnings(d: ExtractedData, x: Extras)
    ensures NameWarning in CollectWarnings(BuildContext(d, x)) <==>
      !Present(d.contact.name) || d.contact.name.value == "N/A"
    ensures EmailWarning in CollectWarnings(BuildContext(d, x)) <==>
      !Present(d.contact.email) || d.contact.email.value == "N/A"
  {
  }

  /** Without reply bullets and without a summary, the placeholder text
      itself raises the summary warning. */
  lemma NoSummaryWarns(d: ExtractedData, x: Extras)
    requires !UsesLlmBullets(x.enrichment) && !Present(d.summary)
    ensures SummaryWarning in CollectWarnings(BuildContext(d, x))
    ensures BulletsWarning in CollectWarnings(BuildContext(d, x))
  {
    assert SummaryOf(d.summary, x.enrichment).text == "";
    PlaceholderReadsUnavailable();
    assert Trim(OrElse(d.summary, "")) == "";
  }

  /** The placeholder summary contains "not available" once lower-cased. */
  lemma PlaceholderReadsUnavailable()
    ensures Contains(Lower(SummaryUnavailable), "not available")
  {
    var s := SummaryUnavailable;
    var phrase := "not available";
    assert s[21..34] == phrase;
    forall k | 0 <= k < |phrase|
      ensures !IsUpperChar(phrase[k])
    {
    }
    LowerUnchanged(phrase);
    LowerSlice(s, 21, 34);
    assert OccursAt(Lower(s), phrase, 21);
  }

  /** The skills warning follows the extracted skills alone. */
  lemma SkillsWarningIff(d: ExtractedData, x: Extras)
    ensures SkillsWarning in CollectWarnings(BuildContext(d, x)) <==> d.skills == []
  {
  }
}
