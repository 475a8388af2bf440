/** The shape of the second LLM adapter's reply, which the template context
    builder reads as enrichment: detailed experience, other notable
    projects, education and certification tables, and summary bullets.
    A JSON null is read as a missing key. */
module Enrichment {
  import opened Wrappers

  /** A value that arrives either as a list of strings or as one string. */
  datatype StrList = Items(items: seq<string>) | Text(text: string) | Absent

  /** Python truthiness of such a value. */
  predicate Truthy(v: StrList) {
    match v
    case Items(xs) => |xs| > 0
    case Text(t) => t != ""
    case Absent => false
  }

  /** The value as a list: a single string becomes a one-item list. */
  function AsList(v: StrList): (r: seq<string>)
    ensures Truthy(v) ==> |r| > 0
  {
    match v
    case Items(xs) => xs
    case Text(t) => [t]
    case Absent => []
  }

  /** `a or b or []`, then a string wrapped as a one-item list. */
  function FirstList(a: StrList, b: StrList): (r: seq<string>)
    ensures Truthy(a) ==> r == AsList(a)
    ensures !Truthy(a) && Truthy(b) ==> r == AsList(b)
    ensures !Truthy(a) && !Truthy(b) ==> r == []
  {
    if Truthy(a) then AsList(a) else if Truthy(b) then AsList(b) else []
  }

  /** One `detailed_experience` entry. */
  datatype DetailedExperience = DetailedExperience(
    projectName: Option<string>,
    title: Option<string>,
    organization: Option<string>,
    company: Option<string>,
    location: Option<string>,
    duration: Option<string>,
    projectDescription: Option<string>,
    description: Option<string>,
    keyAchievements: StrList,
    technologiesUsed: StrList,
    technology: StrList)

  /** One `other_notable_projects` entry. */
  datatype NotableProject = NotableProject(
    projectName: Option<string>,
    name: Option<string>,
    duration: Option<string>,
    technologies: StrList,
    technology: StrList)

  /** One `education` table entry. */
  datatype EducationEntry = EducationEntry(
    degree: Option<string>,
    course: Option<string>,
    institution: Option<string>,
    university: Option<string>,
    board: Option<string>,
    year: Option<string>,
    graduationDate: Option<string>)

  /** One `certifications` entry. */
  datatype CertificationEntry = CertificationEntry(
    issuer: Option<string>,
    authority: Option<string>,
    name: Option<string>)

  /** A JSON member that may be missing, be `null`, or hold a value. */
  datatype JsonField<T> = Missing | Null | Value(value: T)

  /** The enrichment dictionary; a missing list is empty. */
  datatype EnrichmentData = EnrichmentData(
    summaryBullets: Option<seq<string>>,
    detailedExperience: seq<DetailedExperience>,
    otherNotableProjects: seq<NotableProject>,
    education: seq<EducationEntry>,
    certifications: seq<CertificationEntry>,
    attemptCount: JsonField<int>)

  const NoEnrichment: EnrichmentData := EnrichmentData(None, [], [], [], [], Missing)
}
