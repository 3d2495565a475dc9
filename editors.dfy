/**
 * The form's editors. Each builds a new resume record from the current one
 * with a single change and hands it to the page; none of them changes the
 * record it was given. An id for a new entry is a parameter here, as the
 * form reads it from the clock. A field name and its value travel together
 * as one typed edit, so only the fields an entry really has can be set.
 */
module Editors {
  import opened Resume
  import opened Entries
  import SkillItems

  /** One field of a job together with its new value. */
  datatype ExperienceEdit =
    | Company(company: string)
    | Position(position: string)
    | StartDate(startDate: string)
    | EndDate(endDate: string)
    | Current(current: bool)
    | Description(description: string)

  /** One field of a degree together with its new value. */
  datatype EducationEdit =
    | Institution(institution: string)
    | Degree(degree: string)
    | Field(field: string)
    | GraduationDate(graduationDate: string)
    | Gpa(gpa: string)

  /** One field of a skill category together with its new value. */
  datatype SkillEdit =
    | Category(category: string)
    | Items(items: seq<string>)

  function ExperienceId(e: Experience): string { e.id }
  function EducationId(e: Education): string { e.id }
  function SkillId(s: SkillCategory): string { s.id }

  /** `{ ...exp, [field]: value }` */
  function EditExperience(e: Experience, edit: ExperienceEdit): (r: Experience)
    ensures r.id == e.id
  {
    match edit
    case Company(v) => e.(company := v)
    case Position(v) => e.(position := v)
    case StartDate(v) => e.(startDate := v)
    case EndDate(v) => e.(endDate := v)
    case Current(v) => e.(current := v)
    case Description(v) => e.(description := v)
  }

  /** `{ ...edu, [field]: value }` */
  function EditEducation(e: Education, edit: EducationEdit): (r: Education)
    ensures r.id == e.id
  {
    match edit
    case Institution(v) => e.(institution := v)
    case Degree(v) => e.(degree := v)
    case Field(v) => e.(field := v)
    case GraduationDate(v) => e.(graduationDate := v)
    case Gpa(v) => e.(gpa := Some(v))
  }

  /** `{ ...skill, [field]: value }` */
  function EditSkill(s: SkillCategory, edit: SkillEdit): (r: SkillCategory)
    ensures r.id == s.id
  {
    match edit
    case Category(v) => s.(category := v)
    case Items(v) => s.(items := v)
  }

  /** `updatePersonalInfo(field, value)` */
  function UpdatePersonalInfo(d: ResumeData, f: PersonalField, v: string): (r: ResumeData)
    ensures r.personalInfo.Get(f) == v
    ensures forall g :: g != f ==> r.personalInfo.Get(g) == d.personalInfo.Get(g)
    ensures r.summary == d.summary
    ensures r.experience == d.experience && r.education == d.education && r.skills == d.skills
  {
    d.(personalInfo := d.personalInfo.With(f, v))
  }

  /** `updateSummary(value)` */
  function UpdateSummary(d: ResumeData, v: string): (r: ResumeData)
    ensures r.summary == v
    ensures r.personalInfo == d.personalInfo
    ensures r.experience == d.experience && r.education == d.education && r.skills == d.skills
  {
    d.(summary := v)
  }

  /** The blank job `addExperience` appends. */
  function BlankExperience(id: string): (e: Experience)
    ensures e.id == id && !e.current
    ensures e.company == "" && e.position == "" && e.startDate == "" && e.endDate == "" && e.description == ""
  {
    Experience(id, "", "", "", "", false, "")
  }

  /** The blank degree `addEducation` appends; its gpa is present and empty. */
  function BlankEducation(id: string): (e: Education)
    ensures e.id == id && e.gpa == Some("")
    ensures e.institution == "" && e.degree == "" && e.field == "" && e.graduationDate == ""
  {
    Education(id, "", "", "", "", Some(""))
  }

  /** The blank category `addSkillCategory` appends. */
  function BlankSkillCategory(id: string): (s: SkillCategory)
    ensures s.id == id && s.category == "" && s.items == []
  {
    SkillCategory(id, "", [])
  }

  /** `addExperience()`, with the new id given. */
  function AddExperience(d: ResumeData, id: string): (r: ResumeData)
    ensures r.experience == d.experience + [BlankExperience(id)]
    ensures r.personalInfo == d.personalInfo && r.summary == d.summary
    ensures r.education == d.education && r.skills == d.skills
  {
    d.(experience := d.experience + [BlankExperience(id)])
  }

  /** `updateExperience(id, field, value)` */
  function UpdateExperience(d: ResumeData, id: string, edit: ExperienceEdit): (r: ResumeData)
    ensures |r.experience| == |d.experience|
    ensures forall k :: 0 <= k < |d.experience| ==>
      r.experience[k] == if d.experience[k].id == id then EditExperience(d.experience[k], edit) else d.experience[k]
    ensures r.personalInfo == d.personalInfo && r.summary == d.summary
    ensures r.education == d.education && r.skills == d.skills
  {
    d.(experience := UpdateById(d.experience, ExperienceId, id, e => EditExperience(e, edit)))
  }

  /** `removeExperience(id)` */
  function RemoveExperience(d: ResumeData, id: string): (r: ResumeData)
    ensures forall k :: 0 <= k < |r.experience| ==> r.experience[k].id != id
    ensures IsSubsequence(r.experience, d.experience)
    ensures |r.experience| == |d.experience| - CountId(d.experience, ExperienceId, id)
    ensures r.personalInfo == d.personalInfo && r.summary == d.summary
    ensures r.education == d.education && r.skills == d.skills
  {
    d.(experience := RemoveById(d.experience, ExperienceId, id))
  }

  /** `addEducation()`, with the new id given. */
  function AddEducation(d: ResumeData, id: string): (r: ResumeData)
    ensures r.education == d.education + [BlankEducation(id)]
    ensures r.personalInfo == d.personalInfo && r.summary == d.summary
    ensures r.experience == d.experience && r.skills == d.skills
  {
    d.(education := d.education + [BlankEducation(id)])
  }

  /** `updateEducation(id, field, value)` */
  function UpdateEducation(d: ResumeData, id: string, edit: EducationEdit): (r: ResumeData)
    ensures |r.education| == |d.education|
    ensures forall k :: 0 <= k < |d.education| ==>
      r.education[k] == if d.education[k].id == id then EditEducation(d.education[k], edit) else d.education[k]
    ensures r.personalInfo == d.personalInfo && r.summary == d.summary
    ensures r.experience == d.experience && r.skills == d.skills
  {
    d.(education := UpdateById(d.education, EducationId, id, e => EditEducation(e, edit)))
  }

  /** `removeEducation(id)` */
  function RemoveEducation(d: ResumeData, id: string): (r: ResumeData)
    ensures forall k :: 0 <= k < |r.education| ==> r.education[k].id != id
    ensures IsSubsequence(r.education, d.education)
    ensures |r.education| == |d.education| - CountId(d.education, EducationId, id)
    ensures r.personalInfo == d.personalInfo && r.summary == d.summary
    ensures r.experience == d.experience && r.skills == d.skills
  {
    d.(education := RemoveById(d.education, EducationId, id))
  }

  /** `addSkillCategory()`, with the new id given. */
  function AddSkillCategory(d: ResumeData, id: string): (r: ResumeData)
    ensures r.skills == d.skills + [BlankSkillCategory(id)]
    ensures r.personalInfo == d.personalInfo && r.summary == d.summary
    ensures r.experience == d.experience && r.education == d.education
  {
    d.(skills := d.skills + [BlankSkillCategory(id)])
  }

  /** `updateSkillCategory(id, field, value)` */
  function UpdateSkillCategory(d: ResumeData, id: string, edit: SkillEdit): (r: ResumeData)
    ensures |r.skills| == |d.skills|
    ensures forall k :: 0 <= k < |d.skills| ==>
      r.skills[k] == if d.skills[k].id == id then EditSkill(d.skills[k], edit) else d.skills[k]
    ensures r.personalInfo == d.personalInfo && r.summary == d.summary
    ensures r.experience == d.experience && r.education == d.education
  {
    d.(skills := UpdateById(d.skills, SkillId, id, s => EditSkill(s, edit)))
  }

  /** `removeSkillCategory(id)` */
  function RemoveSkillCategory(d: ResumeData, id: string): (r: ResumeData)
    ensures forall k :: 0 <= k < |r.skills| ==> r.skills[k].id != id
    ensures IsSubsequence(r.skills, d.skills)
    ensures |r.skills| == |d.skills| - CountId(d.skills, SkillId, id)
    ensures r.personalInfo == d.personalInfo && r.summary == d.summary
    ensures r.experience == d.experience && r.education == d.education
  {
    d.(skills := RemoveById(d.skills, SkillId, id))
  }

  /**
   * Typing `text` into the items box of category `id`: the items of every
   * category with that id become the non-empty pieces of the text, none of
   * which contains the separator.
   */
  function TypeSkillItems(d: ResumeData, id: string, text: string): (r: ResumeData)
    ensures |r.skills| == |d.skills|
    ensures forall k :: 0 <= k < |d.skills| && d.skills[k].id == id ==>
      r.skills[k].id == id && r.skills[k].category == d.skills[k].category &&
      r.skills[k].items == SkillItems.Parse(text) && SkillItems.Clean(r.skills[k].items)
    ensures forall k :: 0 <= k < |d.skills| && d.skills[k].id != id ==> r.skills[k] == d.skills[k]
    ensures r.personalInfo == d.personalInfo && r.summary == d.summary
    ensures r.experience == d.experience && r.education == d.education
  {
    UpdateSkillCategory(d, id, Items(SkillItems.Parse(text)))
  }

  /** The text the items box of a category shows. */
  function ShownSkillItems(s: SkillCategory): (r: string)
    ensures |s.items| >= 1 ==> s.items[0] <= r
    ensures s.items == [] ==> r == ""
  {
    SkillItems.Format(s.items)
  }

  /**
   * Re-reading what the box shows changes nothing, for a category whose
   * items are clean (as every list the box itself produced is).
   */
  lemma RetypeShownItems(d: ResumeData, k: int)
    requires 0 <= k < |d.skills|
    requires forall j :: 0 <= j < |d.skills| && d.skills[j].id == d.skills[k].id ==> d.skills[j].items == d.skills[k].items
    requires SkillItems.Clean(d.skills[k].items)
    ensures TypeSkillItems(d, d.skills[k].id, ShownSkillItems(d.skills[k])) == d
  {
    var id := d.skills[k].id;
    var r := TypeSkillItems(d, id, ShownSkillItems(d.skills[k]));
    SkillItems.ParseFormat(d.skills[k].items);
    forall j | 0 <= j < |d.skills| ensures r.skills[j] == d.skills[j] {
      if d.skills[j].id == id {
        assert r.skills[j] == d.skills[j].(items := d.skills[k].items);
      }
    }
  }

  /** An id no job of `d` carries. */
  predicate FreshExperienceId(d: ResumeData, id: string) {
    forall k :: 0 <= k < |d.experience| ==> d.experience[k].id != id
  }

  predicate FreshEducationId(d: ResumeData, id: string) {
    forall k :: 0 <= k < |d.education| ==> d.education[k].id != id
  }

  predicate FreshSkillId(d: ResumeData, id: string) {
    forall k :: 0 <= k < |d.skills| ==> d.skills[k].id != id
  }

  /** Adding a job under a fresh id and removing that id restores the record. */
  lemma AddThenRemoveExperience(d: ResumeData, id: string)
    requires FreshExperienceId(d, id)
    ensures RemoveExperience(AddExperience(d, id), id) == d
  {
    RemoveAppended(d.experience, ExperienceId, BlankExperience(id));
  }

  /** Adding a degree under a fresh id and removing that id restores the record. */
  lemma AddThenRemoveEducation(d: ResumeData, id: string)
    requires FreshEducationId(d, id)
    ensures RemoveEducation(AddEducation(d, id), id) == d
  {
    RemoveAppended(d.education, EducationId, BlankEducation(id));
  }

  /** Adding a category under a fresh id and removing that id restores the record. */
  lemma AddThenRemoveSkillCategory(d: ResumeData, id: string)
    requires FreshSkillId(d, id)
    ensures RemoveSkillCategory(AddSkillCategory(d, id), id) == d
  {
    RemoveAppended(d.skills, SkillId, BlankSkillCategory(id));
  }

  /** Editing a job nobody has, or removing it, leaves the record as it is. */
  lemma AbsentExperienceId(d: ResumeData, id: string, edit: ExperienceEdit)
    requires FreshExperienceId(d, id)
    ensures UpdateExperience(d, id, edit) == d
    ensures RemoveExperience(d, id) == d
  {
    UpdateAbsent(d.experience, ExperienceId, id, e => EditExperience(e, edit));
    RemoveAbsent(d.experience, ExperienceId, id);
  }

  lemma AbsentEducationId(d: ResumeData, id: string, edit: EducationEdit)
    requires FreshEducationId(d, id)
    ensures UpdateEducation(d, id, edit) == d
    ensures RemoveEducation(d, id) == d
  {
    UpdateAbsent(d.education, EducationId, id, e => EditEducation(e, edit));
    RemoveAbsent(d.education, EducationId, id);
  }

  lemma AbsentSkillId(d: ResumeData, id: string, edit: SkillEdit)
    requires FreshSkillId(d, id)
    ensures UpdateSkillCategory(d, id, edit) == d
    ensures RemoveSkillCategory(d, id) == d
  {
    UpdateAbsent(d.skills, SkillId, id, s => EditSkill(s, edit));
    RemoveAbsent(d.skills, SkillId, id);
  }

  /** A job that is edited and then removed leaves no trace. */
  lemma RemoveAfterUpdateExperience(d: ResumeData, id: string, edit: ExperienceEdit)
    ensures RemoveExperience(UpdateExperience(d, id, edit), id) == RemoveExperience(d, id)
  {
    RemoveAfterUpdate(d.experience, ExperienceId, id, e => EditExperience(e, edit));
  }

  /** A degree that is edited and then removed leaves no trace. */
  lemma RemoveAfterUpdateEducation(d: ResumeData, id: string, edit: EducationEdit)
    ensures RemoveEducation(UpdateEducation(d, id, edit), id) == RemoveEducation(d, id)
  {
    RemoveAfterUpdate(d.education, EducationId, id, e => EditEducation(e, edit));
  }

  /** A skill category that is edited and then removed leaves no trace. */
  lemma RemoveAfterUpdateSkillCategory(d: ResumeData, id: string, edit: SkillEdit)
    ensures RemoveSkillCategory(UpdateSkillCategory(d, id, edit), id) == RemoveSkillCategory(d, id)
  {
    RemoveAfterUpdate(d.skills, SkillId, id, s => EditSkill(s, edit));
  }
}
