/** The post-processing of the first LLM adapter: removing markdown fences
    from the model's reply before JSON decoding, and converting the decoded
    reply into the extraction record. The model call and the JSON decoder
    themselves are parameters. */
module GeminiProcessor {
  import opened Wrappers
  import opened Text
  import opened Seqs
  import opened Schemas

  // ---------------------------------------------------------------------
  // Fence stripping
  // ---------------------------------------------------------------------

  const JsonFence: string := "```json"
  const Fence: string := "```"

  /** The fence removal on an already stripped reply: a leading "```json"
      removed, then (independently) a leading "```", then a trailing "```". */
  function Unfence(t: string): (r: string)
    ensures |r| <= |t|
  {
    var a := if StartsWith(t, JsonFence) then t[|JsonFence|..] else t;
    var b := if StartsWith(a, Fence) then a[|Fence|..] else a;
    if EndsWith(b, Fence) then b[..|b| - |Fence|] else b
  }

  /** The reply cleaned for decoding: stripped, unfenced, stripped again. */
  function StripFences(reply: string): (r: string)
    ensures |r| <= |reply|
  {
    Trim(Unfence(Trim(reply)))
  }

  /** A body in a "```json" fence comes out of `Unfence` unchanged. */
  lemma UnfenceJson(body: string)
    requires |body| > 0 ==> body[0] != '`'
    ensures Unfence(JsonFence + body + Fence) == body
  {
    var s := JsonFence + body + Fence;
    assert StartsWith(s, JsonFence) by {
      assert s[..|JsonFence|] == JsonFence;
    }
    var a := s[|JsonFence|..];
    assert a == body + Fence;
    if body == [] {
      assert a == Fence;
    } else {
      assert !StartsWith(a, Fence) by {
        assert a[0] == body[0];
      }
      assert EndsWith(a, Fence) by {
        assert a[|a| - |Fence|..] == Fence;
      }
      assert a[..|a| - |Fence|] == body;
    }
  }

  /** A reply wrapped in a "```json" fence decodes as its body. */
  lemma JsonFenceRoundTrip(body: string)
    requires |body| > 0 ==> body[0] != '`'
    ensures StripFences(JsonFence + body + Fence) == Trim(body)
  {
    var s := JsonFence + body + Fence;
    assert s[0] == '`' && s[|s| - 1] == '`';
    TrimUnchanged(s);
    UnfenceJson(body);
  }

  /** A body in a bare "```" fence comes out of `Unfence` unchanged. */
  lemma UnfenceBare(body: string)
    requires |body| > 0 ==> body[0] != '`' && body[0] != 'j'
    ensures Unfence(Fence + body + Fence) == body
  {
    var s := Fence + body + Fence;
    assert !StartsWith(s, JsonFence) by {
      if |s| >= |JsonFence| {
        assert s[3] != JsonFence[3];
      }
    }
    assert StartsWith(s, Fence) by {
      assert s[..|Fence|] == Fence;
    }
    var b := s[|Fence|..];
    assert b == body + Fence;
    assert EndsWith(b, Fence) by {
      assert b[|b| - |Fence|..] == Fence;
    }
    assert b[..|b| - |Fence|] == body;
  }

  /** A reply wrapped in a bare "```" fence decodes as its body. */
  lemma FenceRoundTrip(body: string)
    requires |body| > 0 ==> body[0] != '`' && body[0] != 'j'
    ensures StripFences(Fence + body + Fence) == Trim(body)
  {
    var s := Fence + body + Fence;
    assert s[0] == '`' && s[|s| - 1] == '`';
    TrimUnchanged(s);
    UnfenceBare(body);
  }

  /** A string that neither starts nor ends with a fence has none to remove. */
  lemma UnfenceNothing(t: string)
    requires !StartsWith(t, Fence) && !EndsWith(t, Fence)
    ensures Unfence(t) == t
  {
  }

  /** A reply without fences is only stripped. */
  lemma UnfencedReply(reply: string)
    requires !StartsWith(Trim(reply), Fence) && !EndsWith(Trim(reply), Fence)
    ensures StripFences(reply) == Trim(reply)
  {
    UnfenceNothing(Trim(reply));
    TrimIdempotent(reply);
  }

  // ---------------------------------------------------------------------
  // The decoded reply
  // ---------------------------------------------------------------------

  /** One entry of `project_experience`; a missing key is None or empty. */
  datatype GeminiProject = GeminiProject(
    projectName: Option<string>,
    organization: Option<string>,
    location: Option<string>,
    duration: Option<string>,
    keyAchievements: seq<string>,
    technologies: seq<string>)

  /** One entry of `education`. */
  datatype GeminiEducation = GeminiEducation(
    qualification: Option<string>,
    institution: Option<string>,
    year: Option<string>,
    gpa: Option<string>,
    achievements: Option<string>)

  /** The `skills` value: an object of categories (a category whose value
      is not a list is None), a plain list, or anything else. */
  datatype GeminiSkills =
    | SkillCategories(categories: seq<(string, Option<seq<string>>)>)
    | SkillList(items: seq<string>)
    | OtherSkills

  /** The decoded reply. A missing `title` is "". */
  datatype GeminiData = GeminiData(
    contact: ContactInfo,
    title: string,
    summaryBullets: seq<string>,
    projects: seq<GeminiProject>,
    education: seq<GeminiEducation>,
    skills: GeminiSkills,
    certifications: seq<string>)

  const ApiNotInitialized: string := "Gemini API not initialized. Please provide API key."
  const ParseFailure: string := "Failed to parse LLM response. Please try again."

  /** `extract_resume_data` after the model call: without a model it
      raises; otherwise the cleaned reply is decoded, and a decode failure
      is raised as ValueError rather than absorbed. */
  function ExtractResumeData(hasModel: bool, reply: string, decode: string -> Option<GeminiData>): (r: Result<GeminiData>)
    ensures !hasModel ==> r == Failure(ValueError(ApiNotInitialized))
    ensures hasModel ==> (r.Success? <==> decode(StripFences(reply)).Some?)
    ensures hasModel && r.Failure? ==> r.error == ValueError(ParseFailure)
    ensures r.Success? ==> r.value == decode(StripFences(reply)).value
  {
    if !hasModel then Failure(ValueError(ApiNotInitialized))
    else match decode(StripFences(reply))
      case Some(d) => Success(d)
      case None => Failure(ValueError(ParseFailure))
  }

  // ---------------------------------------------------------------------
  // Conversion
  // ---------------------------------------------------------------------

  const Bullet: string := "• "
  const ConvertedConfidence: real := 0.95
  const MaxConvertedSkills: nat := 20
  const DurationSeparator: string := " - "

  /** Every item prefixed with a bullet. */
  function Bulleted(items: seq<string>): (r: seq<string>)
    ensures |r| == |items|
    ensures forall i :: 0 <= i < |items| ==> r[i] == Bullet + items[i]
  {
    seq(|items|, i requires 0 <= i < |items| => Bullet + items[i])
  }

  /** The summary built from the bullets: the non-empty ones, each with a
      bullet, one per line. */
  function BulletSummary(bullets: seq<string>): string {
    Join(Bulleted(NonEmpty(bullets)), "\n")
  }

  /** The title in bold markdown. */
  function Bold(title: string): string {
    "**" + title + "**"
  }

  /** The title put in front of the summary: bold and followed by a blank
      line when there is a summary, the whole summary when there is not. */
  function WithTitle(title: string, summary: string): string {
    if title != "" && summary != "" then Bold(title) + "\n\n" + summary
    else if title != "" then title
    else summary
  }

  /** The description of a project: its achievements as bullet lines, and
      the technologies after a blank line when there are any. */
  function ProjectDescription(p: GeminiProject): string {
    var achievements := Join(Bulleted(p.keyAchievements), "\n");
    if |p.technologies| > 0 then achievements + "\n\nTechnologies: " + Join(p.technologies, ", ")
    else achievements
  }

  /** `duration.split(' - ')[1]`: the text between the first and second
      separators. */
  function SecondPiece(s: string, sep: string): string {
    Before(After(s, sep), sep)
  }

  /** One project as an experience entry. */
  function ProjectToExperience(p: GeminiProject): (r: Experience)
    ensures r.title == Some(p.projectName.GetOr("Project"))
    ensures r.company == p.organization && r.location == p.location
    ensures r.description == Some(ProjectDescription(p))
    ensures r.startDate.Some? <==> Present(p.duration)
    ensures r.endDate.Some? <==> Contains(p.duration.GetOr(""), DurationSeparator)
    ensures r.isCurrent <==> Contains(p.duration.GetOr(""), "Present")
  {
    var d := p.duration.GetOr("");
    Experience(
      Some(p.projectName.GetOr("Project")),
      p.organization,
      p.location,
      if Present(p.duration) then Some(Before(d, DurationSeparator)) else None,
      if Contains(d, DurationSeparator) then Some(SecondPiece(d, DurationSeparator)) else None,
      Some(ProjectDescription(p)),
      Contains(d, "Present"))
  }

  /** One education entry, with qualification as the degree, year as the
      graduation date and achievements as the honours. */
  function ConvertEducation(e: GeminiEducation): (r: Education)
    ensures r.degree == e.qualification && r.institution == e.institution
    ensures r.graduationDate == e.year && r.gpa == e.gpa && r.honors == e.achievements
    ensures r.location.None?
  {
    Education(e.qualification, e.institution, None, e.year, e.gpa, e.achievements)
  }

  /** The skills of the categories whose value is a list, in category order. */
  function CategorySkills(categories: seq<(string, Option<seq<string>>)>): (r: seq<string>)
    decreases |categories|
  {
    if |categories| == 0 then []
    else
      var here := match categories[0].1 case Some(items) => items case None => [];
      here + CategorySkills(categories[1..])
  }

  /** The flattened skills before the cap. */
  function AllSkills(s: GeminiSkills): seq<string> {
    match s
    case SkillCategories(categories) => CategorySkills(categories)
    case SkillList(items) => items
    case OtherSkills => []
  }

  /** `convert_to_extracted_data`. */
  function ConvertToExtractedData(g: GeminiData): (r: ExtractedData)
    ensures r.confidence == ConvertedConfidence
    ensures |r.skills| == Min(MaxConvertedSkills, |AllSkills(g.skills)|)
    ensures |r.skills| <= MaxConvertedSkills && |r.skills| <= |AllSkills(g.skills)|
    ensures r.skills == AllSkills(g.skills)[..|r.skills|]
    ensures r.contact == g.contact && r.certifications == g.certifications && r.rawText.None?
    ensures r.summary == Some(WithTitle(g.title, BulletSummary(g.summaryBullets)))
    ensures |r.experience| == |g.projects|
    ensures forall i :: 0 <= i < |g.projects| ==> r.experience[i] == ProjectToExperience(g.projects[i])
    ensures |r.education| == |g.education|
    ensures forall i :: 0 <= i < |g.education| ==> r.education[i] == ConvertEducation(g.education[i])
  {
    var experience := seq(|g.projects|, i requires 0 <= i < |g.projects| => ProjectToExperience(g.projects[i]));
    var education := seq(|g.education|, i requires 0 <= i < |g.education| => ConvertEducation(g.education[i]));
    ExtractedData(g.contact, Some(WithTitle(g.title, BulletSummary(g.summaryBullets))), experience, education,
      Take(AllSkills(g.skills), MaxConvertedSkills), g.certifications, None, ConvertedConfidence)
  }

  /** `process_resume`: decode the reply, then convert it. */
  function ProcessResume(hasModel: bool, reply: string, decode: string -> Option<GeminiData>): (r: Result<ExtractedData>)
    ensures r.Success? <==> ExtractResumeData(hasModel, reply, decode).Success?
    ensures r.Success? ==> r.value == ConvertToExtractedData(ExtractResumeData(hasModel, reply, decode).value)
    ensures r.Success? ==> r.value.confidence == ConvertedConfidence
  {
    var g :- ExtractResumeData(hasModel, reply, decode);
    Success(ConvertToExtractedData(g))
  }

  // ---------------------------------------------------------------------
  // Properties of the conversion
  // ---------------------------------------------------------------------

  /** Category skills keep category order: the skills of a concatenation
      of categories are the concatenation of their skills. */
  lemma {:induction false} CategorySkillsAppend(a: seq<(string, Option<seq<string>>)>, b: seq<(string, Option<seq<string>>)>)
    ensures CategorySkills(a + b) == CategorySkills(a) + CategorySkills(b)
    decreases |a|
  {
    if |a| > 0 {
      assert (a + b)[1..] == a[1..] + b;
      CategorySkillsAppend(a[1..], b);
    } else {
      assert a + b == b;
    }
  }

  /** A skill is in the flattened list exactly when some category lists it. */
  lemma {:induction false} CategorySkillsMembers(categories: seq<(string, Option<seq<string>>)>, x: string)
    ensures x in CategorySkills(categories) <==>
      exists k :: 0 <= k < |categories| && categories[k].1.Some? && x in categories[k].1.value
    decreases |categories|
  {
    if |categories| > 0 {
      CategorySkillsMembers(categories[1..], x);
      if x in CategorySkills(categories) && !(categories[0].1.Some? && x in categories[0].1.value) {
        var k :| 0 <= k < |categories[1..]| && categories[1..][k].1.Some? && x in categories[1..][k].1.value;
        assert categories[k + 1] == categories[1..][k];
      }
      if exists k :: 0 <= k < |categories| && categories[k].1.Some? && x in categories[k].1.value {
        var k :| 0 <= k < |categories| && categories[k].1.Some? && x in categories[k].1.value;
        if k > 0 {
          assert categories[1..][k - 1] == categories[k];
        }
      }
    }
  }

  /** Bulleting adds no line break. */
  lemma BulletLinesSingle(bullets: seq<string>)
    requires forall i :: 0 <= i < |bullets| ==> '\n' !in bullets[i]
    ensures forall i :: 0 <= i < |Bulleted(NonEmpty(bullets))| ==> '\n' !in Bulleted(NonEmpty(bullets))[i]
  {
    var kept := NonEmpty(bullets);
    var lines := Bulleted(kept);
    forall i | 0 <= i < |lines|
      ensures '\n' !in lines[i]
    {
      assert kept[i] in kept;
      var j :| 0 <= j < |bullets| && bullets[j] == kept[i];
      assert lines[i] == Bullet + kept[i];
    }
  }

  /** A line and a blank line in front of newline-free lines. */
  lemma HeadedLines(head: string, lines: seq<string>)
    requires '\n' !in head && |lines| >= 1
    requires forall i :: 0 <= i < |lines| ==> '\n' !in lines[i]
    ensures Lines(head + "\n\n" + Join(lines, "\n")) == [head, ""] + lines
  {
    var all := [head, ""] + lines;
    HeadedJoin(head, lines);
    forall i | 0 <= i < |all|
      ensures '\n' !in all[i]
    {
      if i >= 2 {
        assert all[i] == lines[i - 2];
      }
    }
    LinesJoin(all);
  }

  lemma HeadedJoin(head: string, lines: seq<string>)
    requires |lines| >= 1
    ensures Join([head, ""] + lines, "\n") == head + "\n\n" + Join(lines, "\n")
  {
    var blank: string := "";
    var nl: string := "\n";
    var j := Join(lines, nl);
    JoinConsPair(head, blank, lines, nl);
    assert head + nl + blank + nl + j == head + "\n\n" + j;
  }

  /** The summary's lines are the bulleted non-empty bullets. */
  lemma BulletSummaryLines(bullets: seq<string>)
    requires forall i :: 0 <= i < |bullets| ==> '\n' !in bullets[i]
    requires NonEmpty(bullets) != []
    ensures Lines(BulletSummary(bullets)) == Bulleted(NonEmpty(bullets))
    ensures BulletSummary(bullets) != ""
  {
    var lines := Bulleted(NonEmpty(bullets));
    BulletLinesSingle(bullets);
    LinesJoin(lines);
    if |lines| == 1 {
      assert |lines[0]| >= |Bullet|;
    } else {
      JoinCons(lines[0], lines[1..], "\n");
      assert [lines[0]] + lines[1..] == lines;
    }
  }

  /** With no bullet or title containing a newline, the summary's lines
      are the bold title line, a blank line and the bullet lines. */
  lemma SummaryLines(title: string, bullets: seq<string>)
    requires forall i :: 0 <= i < |bullets| ==> '\n' !in bullets[i]
    requires '\n' !in title
    requires NonEmpty(bullets) != []
    ensures title == "" ==>
      Lines(WithTitle(title, BulletSummary(bullets))) == Bulleted(NonEmpty(bullets))
    ensures title != "" ==>
      Lines(WithTitle(title, BulletSummary(bullets))) == [Bold(title), ""] + Bulleted(NonEmpty(bullets))
  {
    BulletSummaryLines(bullets);
    if title != "" {
      BulletLinesSingle(bullets);
      TitledLines(title, BulletSummary(bullets), Bulleted(NonEmpty(bullets)));
    }
  }

  lemma TitledLines(title: string, summary: string, lines: seq<string>)
    requires '\n' !in title && title != "" && summary != ""
    requires summary == Join(lines, "\n") && |lines| >= 1
    requires forall i :: 0 <= i < |lines| ==> '\n' !in lines[i]
    ensures Lines(WithTitle(title, summary)) == [Bold(title), ""] + lines
  {
    assert '\n' !in Bold(title);
    HeadedLines(Bold(title), lines);
  }

  /** Without bullets the summary is the title alone, and without a title
      it is the bullets alone. */
  lemma SummaryWithoutBullets(title: string, bullets: seq<string>)
    ensures NonEmpty(bullets) == [] ==> WithTitle(title, BulletSummary(bullets)) == title
    ensures title == "" ==> WithTitle(title, BulletSummary(bullets)) == BulletSummary(bullets)
  {
  }

  /** A duration "start - end" whose start has no dash and whose end has no
      separator is split back into exactly those two dates. */
  lemma DurationRoundTrip(p: GeminiProject, start: string, end: string)
    requires p.duration == Some(start + DurationSeparator + end)
    requires '-' !in start && !Contains(end, DurationSeparator)
    ensures ProjectToExperience(p).startDate == Some(start)
    ensures ProjectToExperience(p).endDate == Some(end)
  {
    var d := start + DurationSeparator + end;
    assert OccursAt(d, DurationSeparator, |start|) by {
      assert d[|start|..|start| + 3] == DurationSeparator;
    }
    forall j | 0 <= j < |start|
      ensures !OccursAt(d, DurationSeparator, j)
    {
      if j + 1 < |start| {
        assert d[j + 1] == start[j + 1];
      } else {
        assert d[j + 1] == ' ';
      }
    }
    assert IndexOf(d, DurationSeparator) == Some(|start|);
    assert Before(d, DurationSeparator) == start;
    assert After(d, DurationSeparator) == end by {
      assert d[|start| + 3..] == end;
    }
  }

  /** The description ends with the technologies line exactly when the
      project lists technologies. */
  lemma DescriptionTechnologies(p: GeminiProject)
    ensures |p.technologies| > 0 ==>
      EndsWith(ProjectDescription(p), "\n\nTechnologies: " + Join(p.technologies, ", "))
    ensures |p.technologies| == 0 ==> ProjectDescription(p) == Join(Bulleted(p.keyAchievements), "\n")
  {
    if |p.technologies| > 0 {
      var a := Join(Bulleted(p.keyAchievements), "\n");
      var t := "\n\nTechnologies: " + Join(p.technologies, ", ");
      assert ProjectDescription(p) == a + t;
      assert (a + t)[|a + t| - |t|..] == t;
    }
  }
}
