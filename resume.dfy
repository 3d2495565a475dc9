/**
 * The resume record that the page owns and the form edits: personal
 * details, a free-text summary and three ordered sequences of entries.
 * Absent text is the empty string; nothing is ever null.
 */
module Resume {

  datatype Option<T> = None | Some(value: T)

  /** The six text fields of the personal-details block, in form order. */
  datatype PersonalField = FullName | Email | Phone | Location | Linkedin | Portfolio

  datatype PersonalInfo = PersonalInfo(
    fullName: string,
    email: string,
    phone: string,
    location: string,
    linkedin: string,
    portfolio: string)
  {
    /** The value of field `f`. */
    function Get(f: PersonalField): string {
      match f
      case FullName => fullName
      case Email => email
      case Phone => phone
      case Location => location
      case Linkedin => linkedin
      case Portfolio => portfolio
    }

    /** This block with field `f` replaced by `v`. */
    function With(f: PersonalField, v: string): (p: PersonalInfo)
      ensures p.Get(f) == v
      ensures forall g :: g != f ==> p.Get(g) == Get(g)
    {
      match f
      case FullName => this.(fullName := v)
      case Email => this.(email := v)
      case Phone => this.(phone := v)
      case Location => this.(location := v)
      case Linkedin => this.(linkedin := v)
      case Portfolio => this.(portfolio := v)
    }
  }

  /** One job. When `current` holds, `endDate` is not shown. */
  datatype Experience = Experience(
    id: string,
    company: string,
    position: string,
    startDate: string,
    endDate: string,
    current: bool,
    description: string)

  /** One degree; `gpa` is an optional property of the record. */
  datatype Education = Education(
    id: string,
    institution: string,
    degree: string,
    field: string,
    graduationDate: string,
    gpa: Option<string>)

  datatype SkillCategory = SkillCategory(id: string, category: string, items: seq<string>)

  datatype ResumeData = ResumeData(
    personalInfo: PersonalInfo,
    summary: string,
    experience: seq<Experience>,
    education: seq<Education>,
    skills: seq<SkillCategory>)

  /** The record the page starts with: every text empty, every sequence empty. */
  function Initial(): (r: ResumeData)
    ensures forall f :: r.personalInfo.Get(f) == ""
    ensures r.summary == ""
    ensures |r.experience| == 0 && |r.education| == 0 && |r.skills| == 0
  {
    ResumeData(PersonalInfo("", "", "", "", "", ""), "", [], [], [])
  }
}
