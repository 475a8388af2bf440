/** The records the extraction pipeline produces (the pydantic models of the
    schema module), with their defaults and the [0,1] bound on the
    confidence score.  Python's `Optional[str]` is `Option<string>`. */
module Schemas {
  import opened Wrappers

  /** Status of a processing job: exactly four values. */
  datatype JobStatus = Pending | Processing | Completed | Failed {

    /** The string value the enum carries. */
    function Value(): string {
      match this
      case Pending => "pending"
      case Processing => "processing"
      case Completed => "completed"
      case Failed => "failed"
    }
  }

  const AllJobStatuses: seq<JobStatus> := [Pending, Processing, Completed, Failed]

  /** `JobStatus(s)`: the member whose value is `s`, or None where Python
      raises ValueError. */
  function ParseJobStatus(s: string): (r: Option<JobStatus>)
    ensures r.Some? ==> r.value.Value() == s
    ensures r.None? ==> forall st: JobStatus :: st.Value() != s
  {
    if s == "pending" then Some(Pending)
    else if s == "processing" then Some(Processing)
    else if s == "completed" then Some(Completed)
    else if s == "failed" then Some(Failed)
    else None
  }

  /** Contact details: six optional fields and no `title`. */
  datatype ContactInfo = ContactInfo(
    name: Option<string>,
    email: Option<string>,
    phone: Option<string>,
    address: Option<string>,
    linkedin: Option<string>,
    website: Option<string>)

  const EmptyContact: ContactInfo := ContactInfo(None, None, None, None, None, None)

  /** The attribute names pydantic declares on ContactInfo. */
  const ContactFields: seq<string> := ["name", "email", "phone", "address", "linkedin", "website"]

  /** `getattr(contact, field, default)`: Some(value) for a declared
      attribute, None where Python falls back to the default. */
  function ContactAttr(c: ContactInfo, field: string): (r: Option<Option<string>>)
    ensures r.Some? <==> field in ContactFields
    ensures field == "title" ==> r.None?
    ensures field == "name" ==> r == Some(c.name)
  {
    if field == "name" then Some(c.name)
    else if field == "email" then Some(c.email)
    else if field == "phone" then Some(c.phone)
    else if field == "address" then Some(c.address)
    else if field == "linkedin" then Some(c.linkedin)
    else if field == "website" then Some(c.website)
    else None
  }

  /** Setting an attribute on a pydantic model: only declared fields can be
      assigned; anything else raises ValueError (naming the field). */
  function SetContactAttr(c: ContactInfo, field: string, v: string): (r: Result<ContactInfo>)
    ensures r.Success? <==> field in ContactFields
    ensures r.Success? ==> ContactAttr(r.value, field) == Some(Some(v))
    ensures r.Failure? ==> r.error == ValueError(field)
  {
    if field == "name" then Success(c.(name := Some(v)))
    else if field == "email" then Success(c.(email := Some(v)))
    else if field == "phone" then Success(c.(phone := Some(v)))
    else if field == "address" then Success(c.(address := Some(v)))
    else if field == "linkedin" then Success(c.(linkedin := Some(v)))
    else if field == "website" then Success(c.(website := Some(v)))
    else Failure(ValueError(field))
  }

  /** One work-history entry. */
  datatype Experience = Experience(
    title: Option<string>,
    company: Option<string>,
    location: Option<string>,
    startDate: Option<string>,
    endDate: Option<string>,
    description: Option<string>,
    isCurrent: bool)

  const EmptyExperience: Experience := Experience(None, None, None, None, None, None, false)

  /** One education entry. */
  datatype Education = Education(
    degree: Option<string>,
    institution: Option<string>,
    location: Option<string>,
    graduationDate: Option<string>,
    gpa: Option<string>,
    honors: Option<string>)

  const EmptyEducation: Education := Education(None, None, None, None, None, None)

  /** `Field(ge=0.0, le=1.0)`: every ExtractedData carries a score in [0,1]. */
  type Confidence = x: real | 0.0 <= x <= 1.0

  /** The aggregate result of one extraction. */
  datatype ExtractedData = ExtractedData(
    contact: ContactInfo,
    summary: Option<string>,
    experience: seq<Experience>,
    education: seq<Education>,
    skills: seq<string>,
    certifications: seq<string>,
    rawText: Option<string>,
    confidence: Confidence)

  /** `ExtractedData()` with every field defaulted. */
  function DefaultExtractedData(): (d: ExtractedData)
    ensures d.contact == EmptyContact
    ensures d.summary.None? && d.rawText.None?
    ensures d.experience == [] && d.education == [] && d.skills == [] && d.certifications == []
    ensures d.confidence == 0.0
  {
    ExtractedData(EmptyContact, None, [], [], [], [], None, 0.0)
  }

  /** Pydantic's validation of the score bound when an ExtractedData is
      constructed: out-of-range scores raise ValueError. */
  function ValidateConfidence(score: real): (r: Result<Confidence>)
    ensures r.Success? <==> 0.0 <= score <= 1.0
    ensures r.Success? ==> r.value == score
  {
    if 0.0 <= score <= 1.0 then Success(score)
    else Failure(ValueError("confidence_score"))
  }

  /** Python truthiness of an optional string: present and non-empty. */
  predicate Present(o: Option<string>) {
    o.Some? && o.value != ""
  }

  /** `o or fallback` for an optional string. */
  function OrElse(o: Option<string>, fallback: string): (r: string)
    ensures Present(o) ==> r == o.value
    ensures !Present(o) ==> r == fallback
  {
    if Present(o) then o.value else fallback
  }
}
