/** The rendering context the template engine builds for a document
    template: the contact block, the summary and its bullets, the
    experience loop, and the row lists the code-generated template's
    tables are filled from. */
module TemplateContext {
  import opened Text
  import opened Seqs
  import opened Enrichment

  /** `', '.join(str(x) for x in xs if str(x).strip())`: the non-blank
      entries, as they are, joined with ", ". */
  function JoinNonBlank(xs: seq<string>): (r: string)
    ensures (forall i :: 0 <= i < |xs| ==> !NonBlank(xs[i])) ==> r == ""
  {
    var kept := Filter(xs, NonBlank);
    assert |kept| > 0 ==> kept[0] in kept;
    Join(kept, ", ")
  }

  /** `context['contact_info']`: every field a string, never None. */
  datatype ContactRow = ContactRow(
    name: string,
    email: string,
    phone: string,
    address: string,
    linkedin: string,
    website: string,
    title: string)

  /** One row of the two-column skills table. */
  datatype SkillRow = SkillRow(left: string, right: string)

  /** One row of the other-notable-projects table. */
  datatype ProjectRow = ProjectRow(name: string, duration: string, technologies: StrList)

  /** One education entry: the three-key rows read from the enrichment and
      the six-key rows built from the extracted education. */
  datatype EducationRow =
    | SimpleEducation(degree: string, institution: string, graduationDate: string)
    | FullEducation(degree: string, institution: string, location: string, graduationDate: string,
                    gpa: string, honors: string)

  /** One row of the certifications table: its 1-based number and authority. */
  datatype CertRow = CertRow(sno: nat, authority: string)

  /** One entry of the experience loop. */
  datatype ExperienceRow = ExperienceRow(
    title: string,
    company: string,
    location: string,
    startDate: string,
    endDate: string,
    description: string,
    projectDescription: string,
    technologies: seq<string>,
    responsibilities: seq<string>,
    isCurrent: bool)

  /** The context keys the rendering and the table population read. */
  datatype Context = Context(
    contact: ContactRow,
    summary: string,
    summaryBullets: seq<string>,
    experience: seq<ExperienceRow>,
    education: seq<EducationRow>,
    skills: seq<string>,
    toolsTitle: string,
    skillsLeftLines: string,
    skillsRightLines: string,
    skillsRows: seq<SkillRow>,
    otherProjects: seq<ProjectRow>,
    certificationRows: seq<CertRow>)
}
