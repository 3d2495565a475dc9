# Smart Resume Builder — a Dafny model of its resume logic

Smart Resume Builder is a single-page React application. The page owns a
resume record: personal details, a summary, and lists of jobs, degrees and
skill categories. A form edits that record, and a dialog offers "AI"
suggestions. Despite the name, the suggestions are six fixed rule-based
checks over the record.

This project models three parts of it:

- **The suggestion evaluator** (`generateSuggestions`), in `suggestions.dfy`.
  - Its two regular expressions are written out as string predicates in
    `patterns.dfy`.
  - The evaluator is a method that pushes suggestions, as the source does.
  - It is proved equal to a functional specification, `EvaluateIn`.
  - Lemmas about that specification state which suggestion appears when,
    in what order and with which attributes.
- **The form's copy-on-write editors**, in `editors.dfy`.
  - They work over the generic update-by-id and remove-by-id of `entries.dfy`.
  - The skills text box's `join(", ")` / `split(", ").filter(Boolean)` pair
    is in `skill_items.dfy`.
- **The page's state**, in `page.dfy`: a class holding the record and the
  dialog flag.

The record itself and its initial value are in `resume.dfy`. Character
classes, ASCII case folding and `join` are in `text.dfy`.

Texts and ids:

- The evaluator takes its texts from a `Wording` catalogue. The page uses
  the catalogue `English`, which holds the source's exact strings.
- Which suggestions appear never depends on the texts, so the structural
  lemmas hold for every catalogue.
- Ids, field names, types and priorities are the source's constants.

## Model

| member | source | states |
|---|---|---|
| Resume.Initial | src/pages/Index.tsx:44-57 | the starting record has all six personal fields empty, an empty summary and no jobs, degrees or skill categories |
| Resume.PersonalInfo.With | src/components/ResumeForm.tsx:20-23 | `{...personalInfo, [field]: value}`: the named field takes the value and every other personal field keeps its own |
| Patterns.HasActionVerb | src/components/AISuggestions.tsx:50 | the definition of the action-verb regex: one of the eleven verbs, in any letter case, with a word boundary on both sides |
| Patterns.MatchesImpactRegex | src/components/AISuggestions.tsx:69 | the definition of the impact regex read literally, alternative by alternative |
| Patterns.HasImpact | src/components/AISuggestions.tsx:69 | the definition of the executable impact test |
| Patterns.ImpactReduction | src/components/AISuggestions.tsx:69 | the executable impact test agrees on every string with the literal reading of the impact regex: digits then `%`, `$` then digits, digits then `+`, or one of "increased", "decreased", "improved" in any case |
| Patterns.ActionVerbIgnoresCase | src/components/AISuggestions.tsx:50 | because of the `i` flag, a description has an action verb exactly when its lower-cased form has one |
| Patterns.WholeWordsOnly | src/components/AISuggestions.tsx:50 | the `\b` boundaries reject "ledger" and "misled" and accept "Led a team" |
| Patterns.ImpactInsideWords | src/components/AISuggestions.tsx:69 | the impact regex has no boundaries: "unimproved" and "by 20%" match, "Worked on things" does not |
| Patterns.NoVerbStart | src/components/AISuggestions.tsx:50 | a text where no word starts with the first letter of any of the eleven verbs has no action verb |
| Patterns.VagueDescription | src/components/AISuggestions.tsx:48-70 | "Worked on things" has neither an action verb nor measured impact |
| Patterns.StrongDescription | src/components/AISuggestions.tsx:48-70 | "Led a team of 5, increasing revenue by 20%" has both |
| Patterns.LeadingVerb | src/components/AISuggestions.tsx:50 | a text opening with the word "led", in any letter case, has an action verb |
| Patterns.TrailingPercent | src/components/AISuggestions.tsx:69 | a text ending in a digit and `%` shows measured impact |
| Suggestions.MissingContacts | src/components/AISuggestions.tsx:86-89 | the definition of the list of missing contact names: at most three, none exactly when email, phone and location are all filled, "email" among them exactly when the email is empty |
| Suggestions.EvaluateIn | src/components/AISuggestions.tsx:31-128 | the definition of the evaluator as a value: each check in turn contributes its suggestion when it fires |
| Suggestions.Evaluate | src/components/AISuggestions.tsx:31-128 | the definition of the evaluator with the page's texts |
| Suggestions.GenerateSuggestions | src/components/AISuggestions.tsx:31-128 | the pushes of the six checks, in source order, produce exactly the specification `EvaluateIn` of the record |
| Suggestions.CollectMissingContacts | src/components/AISuggestions.tsx:86-89 | the pushed list is the names of the empty fields among email, phone and location |
| Suggestions.EvaluateFired | src/components/AISuggestions.tsx:31-128 | the output is the record of each check that fires, in check order, and nothing else |
| Suggestions.Shape | src/components/AISuggestions.tsx:31-128 | one to six suggestions; ids strictly increase in the fixed order summary-length, action-verbs, quantify-achievements, contact-info, skills-section, keywords-tip, hence distinct; the last is always the keyword tip |
| Suggestions.EmittedIff | src/components/AISuggestions.tsx:31-128 | a check's id appears exactly when its condition holds, and only on the check's own record |
| Suggestions.SummaryLengthIff | src/components/AISuggestions.tsx:35-45 | summary-length appears exactly when the summary is empty or shorter than 50 characters |
| Suggestions.ActionVerbsIff | src/components/AISuggestions.tsx:48-64 | action-verbs appears exactly when there is experience and some non-empty description has no whole-word action verb |
| Suggestions.QuantifyIff | src/components/AISuggestions.tsx:67-83 | quantify-achievements appears exactly when there is experience and no description matches the impact regex |
| Suggestions.EmptyDescriptions | src/components/AISuggestions.tsx:48-83 | jobs whose descriptions are all empty trigger quantify-achievements and never action-verbs |
| Suggestions.ContactInfoIff | src/components/AISuggestions.tsx:86-101 | contact-info appears exactly when email, phone or location is empty; its description is the prefix, the missing names joined by ", ", then the suffix |
| Suggestions.MissingContactsOrder | src/components/AISuggestions.tsx:86-89 | the missing names are exactly the empty contact fields, each at most once, in the order email, phone, location |
| Suggestions.SkillsSectionIff | src/components/AISuggestions.tsx:104-114 | skills-section appears exactly when there is no skill category |
| Suggestions.FixedAttributes | src/components/AISuggestions.tsx:35-125 | every suggestion carries the type, priority and field fixed for its id |
| Suggestions.InitialSuggestions | src/components/AISuggestions.tsx:35-125 | the starting record yields summary-length, contact-info, skills-section and keywords-tip, in that order; the contact description names email, phone and location |
| Suggestions.InitialContactMessage | src/components/AISuggestions.tsx:97 | with the page's texts, the starting record's contact description reads "Missing email, phone, location in your contact information." |
| Suggestions.StrongDescriptionExample | src/components/AISuggestions.tsx:48-83 | a job described as "Led a team of 5, increasing revenue by 20%" triggers neither experience check |
| Suggestions.WeakDescriptionExample | src/components/AISuggestions.tsx:48-83 | a job described as "Worked on things" triggers both experience checks |
| Suggestions.ContactExample | src/components/AISuggestions.tsx:86-101 | with only email and location empty, the contact description names exactly "email, location" |
| Entries.CountId | src/components/ResumeForm.tsx:60-65 | the count of entries carrying an id is zero exactly when no entry carries it |
| Entries.UpdateById | src/components/ResumeForm.tsx:51-58 | `map` keeps length and order, edits every entry carrying the id and leaves every other entry identical |
| Entries.RemoveById | src/components/ResumeForm.tsx:60-65 | `filter` leaves no entry carrying the id, keeps the survivors in their original order, and shrinks the list by exactly the number of entries carrying the id |
| Entries.UpdateAbsent | src/components/ResumeForm.tsx:51-58 | editing an id no entry carries changes nothing |
| Entries.RemoveAbsent | src/components/ResumeForm.tsx:60-65 | removing an id no entry carries changes nothing |
| Entries.RemoveAppended | src/components/ResumeForm.tsx:45-47 | an entry appended under a fresh id is removed again by that id, and nothing else is |
| Entries.RemoveAfterUpdate | src/components/ResumeForm.tsx:51-65 | for an edit that keeps entry ids, editing an id's entries and then removing the id equals removing it directly |
| Entries.RemoveIdempotent | src/components/ResumeForm.tsx:60-65 | removing the same id twice equals removing it once |
| SkillItems.Split | src/components/ResumeForm.tsx:389 | `split(", ")` yields at least one piece, and the first piece is a prefix of the text |
| SkillItems.SplitClean | src/components/ResumeForm.tsx:389 | no piece of `split(", ")` contains ", " |
| SkillItems.RemoveEmpty | src/components/ResumeForm.tsx:389 | `filter(Boolean)` keeps exactly the non-empty pieces in their order: none of the result is empty, it is a subsequence of the input, and its length is the input's minus the number of empty pieces |
| SkillItems.DropMiddleEmpty | src/components/ResumeForm.tsx:389 | filtering `[a, "", b]` with non-empty `a` and `b` gives `[a, b]` |
| SkillItems.SplitTwoSeparators | src/components/ResumeForm.tsx:389 | two separators in a row between separator-free `a` and `b` split into `a`, an empty piece and `b` |
| SkillItems.EmptyPieceDropped | src/components/ResumeForm.tsx:389 | a text such as "React, , Vue", two clean items with an empty piece between them, stores just the two items |
| SkillItems.Parse | src/components/ResumeForm.tsx:389 | the stored items are never empty and never contain ", " |
| SkillItems.JoinSplit | src/components/ResumeForm.tsx:388-389 | joining the pieces of a text with ", " gives the text back |
| SkillItems.SplitJoin | src/components/ResumeForm.tsx:388-389 | splitting the join of one or more separator-free pieces gives the pieces back, even when a piece ends in ',' (the empty list is excluded: it joins to "", which splits into one empty piece) |
| SkillItems.ParseFormat | src/components/ResumeForm.tsx:388-389 | for items that are non-empty and free of ", ", reading back what the box shows gives the same items |
| SkillItems.ParseStable | src/components/ResumeForm.tsx:388-389 | after one read, showing and reading again changes nothing |
| SkillItems.TrailingSeparatorDropped | src/components/ResumeForm.tsx:388-389 | the example: typing "React, " stores ["React"], and the box then shows "React" |
| SkillItems.ShownCleanEnd | src/components/ResumeForm.tsx:388 | the join of clean items never ends in ", " |
| SkillItems.ShownNeverEndsInSeparator | src/components/ResumeForm.tsx:388-389 | whatever is typed, the text the box shows next never ends in ", ": a trailing separator never stays in the box |
| SkillItems.Format | src/components/ResumeForm.tsx:388 | the definition of the box's text, `items.join(", ")` |
| Text.Join | src/components/AISuggestions.tsx:97 | the definition of `join(sep)`, used for the contact names and for the skills box |
| Text.JoinLast | src/components/ResumeForm.tsx:388 | joining two or more items ends in the separator and the last item |
| Editors.EditExperience | src/components/ResumeForm.tsx:55-56 | editing a field of a job never changes its id |
| Editors.EditEducation | src/components/ResumeForm.tsx:86-87 | editing a field of a degree never changes its id |
| Editors.EditSkill | src/components/ResumeForm.tsx:114-115 | editing a field of a skill category never changes its id |
| Editors.UpdatePersonalInfo | src/components/ResumeForm.tsx:18-26 | sets exactly the named personal field; the other personal fields, the summary and all three lists are unchanged |
| Editors.UpdateSummary | src/components/ResumeForm.tsx:28-33 | sets the summary; everything else is unchanged |
| Editors.BlankExperience | src/components/ResumeForm.tsx:36-44 | a new job has the given id, every text empty and `current` false |
| Editors.BlankEducation | src/components/ResumeForm.tsx:68-75 | a new degree has the given id, every text empty and an empty gpa |
| Editors.BlankSkillCategory | src/components/ResumeForm.tsx:99-103 | a new skill category has the given id, an empty name and no items |
| Editors.AddExperience | src/components/ResumeForm.tsx:35-49 | appends one blank job; nothing else changes |
| Editors.UpdateExperience | src/components/ResumeForm.tsx:51-58 | same number of jobs in the same order; the jobs carrying the id are edited, the others and the rest of the record are unchanged |
| Editors.RemoveExperience | src/components/ResumeForm.tsx:60-65 | no job carries the id afterwards; the survivors keep their order; the list shrinks by the number of jobs with that id; the rest of the record is unchanged |
| Editors.AddEducation | src/components/ResumeForm.tsx:67-80 | appends one blank degree; nothing else changes |
| Editors.UpdateEducation | src/components/ResumeForm.tsx:82-89 | as UpdateExperience, for degrees |
| Editors.RemoveEducation | src/components/ResumeForm.tsx:91-96 | as RemoveExperience, for degrees |
| Editors.AddSkillCategory | src/components/ResumeForm.tsx:98-108 | appends one blank skill category; nothing else changes |
| Editors.UpdateSkillCategory | src/components/ResumeForm.tsx:110-117 | as UpdateExperience, for skill categories |
| Editors.RemoveSkillCategory | src/components/ResumeForm.tsx:119-124 | as RemoveExperience, for skill categories |
| Editors.TypeSkillItems | src/components/ResumeForm.tsx:389 | typing in a category's box keeps its id and name, stores exactly the parse of the typed text (clean items), leaves every other category as it was, and leaves the personal details, summary, jobs and degrees identical |
| Editors.ShownSkillItems | src/components/ResumeForm.tsx:388 | the definition of the text a category's box shows |
| Editors.RetypeShownItems | src/components/ResumeForm.tsx:388-389 | feeding a category's shown text back into its own box leaves the record unchanged when its items are clean and every category sharing its id holds the same items |
| Editors.AddThenRemoveExperience | src/components/ResumeForm.tsx:35-65 | adding a job under a fresh id and removing that id restores the whole record |
| Editors.AddThenRemoveEducation | src/components/ResumeForm.tsx:67-96 | the same for degrees |
| Editors.AddThenRemoveSkillCategory | src/components/ResumeForm.tsx:98-124 | the same for skill categories |
| Editors.AbsentExperienceId | src/components/ResumeForm.tsx:51-65 | editing or removing a job id nobody carries leaves the record unchanged |
| Editors.AbsentEducationId | src/components/ResumeForm.tsx:82-96 | the same for degrees |
| Editors.AbsentSkillId | src/components/ResumeForm.tsx:110-124 | the same for skill categories |
| Editors.RemoveAfterUpdateExperience | src/components/ResumeForm.tsx:51-65 | a job edited and then removed leaves the same record as removing it directly |
| Editors.RemoveAfterUpdateEducation | src/components/ResumeForm.tsx:82-96 | the same for degrees |
| Editors.RemoveAfterUpdateSkillCategory | src/components/ResumeForm.tsx:110-124 | the same for skill categories |
| Page.Page.constructor | src/pages/Index.tsx:44-59 | the page starts with the empty record and the dialog closed |
| Page.Page.SetResumeData | src/pages/Index.tsx:44 | the form's setter replaces the record and leaves the dialog flag alone |
| Page.Page.HandleAISuggestions | src/pages/Index.tsx:122-124 | opens the dialog; the record is unchanged |
| Page.Page.CloseSuggestions | src/pages/Index.tsx:193 | closes the dialog; the record is unchanged |
| Page.Page.ApplySuggestion | src/pages/Index.tsx:194-197 | applying a suggestion changes neither the record nor the flag |
| Page.Page.RequestSuggestions | src/components/AISuggestions.tsx:130-139 | while the dialog is open, generating gives the evaluator's suggestions for the current record, and the page is not changed |
| Page.OpenOnFreshPage | src/pages/Index.tsx:44-59 | a fresh page with its dialog opened still holds the empty record and suggests summary-length, contact-info, skills-section and keywords-tip |

## Left out

- Rendering is not modelled: the JSX of all three files, `ResumePreview`, the icon and colour maps of the dialog, and its list of shown suggestions. None of these decides any data.
- `handlePDFExport` is not modelled. It works only through browser I/O: a new window, document writes, stylesheet copying and printing.
- The dialog's `loading` flag and its two-second `setTimeout` are not modelled. `Page.Page.RequestSuggestions` computes the suggestions at once.
- `Date.now()` ids are not modelled; the id of a new entry is a parameter. Two adds in the same millisecond can collide, so uniqueness of ids is not claimed. The add-then-remove lemmas assume the id is fresh.
- The form's untyped `[field]: value` edits are modelled as typed edits, one per real field of the entry.
  - Edits naming a field the entry does not have are not modelled; they would add a property to the object.
  - Edits naming `id` are not modelled either. The form never sends any of these.
  - `current` and `gpa` have edits even though the form shows no input for them.
- `gpa?: string` is modelled as `Option<string>`. `addEducation` sets it to `Some("")`.
- Suggestions.SummaryTooShort counts characters (Unicode scalar values), while JavaScript's `length` counts UTF-16 code units. The two differ for characters outside the Basic Multilingual Plane, such as emoji.
- Case folding is ASCII only.
  - Without the `u` flag, a JavaScript regular expression with `i` never folds a non-ASCII character onto an ASCII one.
  - Its `\b` and `\d` know only ASCII characters.
  - So this loses nothing for the two patterns here.
- Page.Page.ApplySuggestion leaves out the console log, which is its only effect.
