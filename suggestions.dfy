/**
 * The suggestion evaluator: six independent checks run in a fixed order
 * over a resume record, each contributing at most one suggestion, the last
 * one unconditionally.
 *
 * Which checks fire never depends on the wording of the suggestions, so the
 * evaluator is written over a catalogue of texts (`Wording`); the page uses
 * the catalogue `English`, and the properties below hold for every
 * catalogue.
 */
module Suggestions {
  import opened Resume
  import opened Text
  import opened Patterns

  datatype Kind = Improvement | Warning | Tip

  datatype Priority = High | Medium | Low

  /** One recommendation; `suggestion` is the text a caller may apply to `field`. */
  datatype Suggestion = Suggestion(
    id: string,
    kind: Kind,
    field: string,
    title: string,
    description: string,
    suggestion: string,
    priority: Priority)

  /** The six checks. */
  datatype Rule = SummaryLength | ActionVerbs | QuantifyAchievements | ContactInfo | SkillsSection | KeywordsTip

  /** The order in which the evaluator runs the checks. */
  const Rules: seq<Rule> := [SummaryLength, ActionVerbs, QuantifyAchievements, ContactInfo, SkillsSection, KeywordsTip]

  /** The position of a check in `Rules`. */
  function Rank(rule: Rule): nat {
    match rule
    case SummaryLength => 0
    case ActionVerbs => 1
    case QuantifyAchievements => 2
    case ContactInfo => 3
    case SkillsSection => 4
    case KeywordsTip => 5
  }

  /** The ids of the six suggestions. */
  const SummaryLengthId := "summary-length"
  const ActionVerbsId := "action-verbs"
  const QuantifyId := "quantify-achievements"
  const ContactInfoId := "contact-info"
  const SkillsSectionId := "skills-section"
  const KeywordsTipId := "keywords-tip"

  /** The fixed id of the suggestion a check emits. */
  function Id(rule: Rule): (id: string)
    ensures IdRank(id) == Rank(rule)
  {
    match rule
    case SummaryLength => SummaryLengthId
    case ActionVerbs => ActionVerbsId
    case QuantifyAchievements => QuantifyId
    case ContactInfo => ContactInfoId
    case SkillsSection => SkillsSectionId
    case KeywordsTip => KeywordsTipId
  }

  /** The position of a suggestion id in the fixed order; 6 for an id no check emits. */
  function IdRank(id: string): nat {
    if id == SummaryLengthId then 0
    else if id == ActionVerbsId then 1
    else if id == QuantifyId then 2
    else if id == ContactInfoId then 3
    else if id == SkillsSectionId then 4
    else if id == KeywordsTipId then 5
    else 6
  }

  /** The names of the form sections a suggestion points at. */
  const SummaryField := "summary"
  const ExperienceField := "experience"
  const PersonalInfoField := "personalInfo"
  const SkillsField := "skills"
  const GeneralField := "general"

  // ---------------------------------------------------------------------
  // The texts

  /** Title, description and advice of one suggestion. */
  datatype Texts = Texts(title: string, description: string, advice: string)

  /**
   * The texts of all six suggestions. The contact description is not fixed:
   * it is `missingPrefix`, the missing field names joined by ", ", then
   * `missingSuffix`.
   */
  datatype Wording = Wording(
    summary: Texts,
    actionVerbs: Texts,
    quantify: Texts,
    contactTitle: string,
    missingPrefix: string,
    missingSuffix: string,
    contactAdvice: string,
    skills: Texts,
    keywords: Texts)

  /** The separator of the missing contact names. */
  const ListSeparator := ", "

  /** The texts the page shows. */
  const English := Wording(
    Texts(
      "Professional Summary Too Short",
      "Your professional summary should be 2-3 sentences highlighting your key achievements.",
      "Expand your summary to include specific achievements, years of experience, and key skills that make you stand out."),
    Texts(
      "Use Stronger Action Verbs",
      "Your experience descriptions could benefit from more impactful action verbs.",
      "Start bullet points with strong action verbs like 'achieved', 'managed', 'led', 'developed', 'implemented', or 'improved' to demonstrate impact."),
    Texts(
      "Add Quantifiable Achievements",
      "Include specific numbers, percentages, or metrics to demonstrate your impact.",
      "Add metrics like '25% increase in sales', '$50K cost savings', or 'managed team of 10' to show concrete results."),
    "Complete Contact Information",
    "Missing ",
    " in your contact information.",
    "Ensure all essential contact information is included so employers can easily reach you.",
    Texts(
      "Add Skills Section",
      "A skills section helps recruiters quickly identify your capabilities.",
      "Add relevant technical skills, software proficiencies, and industry-specific competencies."),
    Texts(
      "Include Industry Keywords",
      "Use keywords from job descriptions to pass through ATS systems.",
      "Review job postings in your field and incorporate relevant keywords naturally throughout your resume."))

  // ---------------------------------------------------------------------
  // The checks

  /** An absent summary or one shorter than 50 characters. */
  predicate SummaryTooShort(d: ResumeData) {
    |d.summary| < 50
  }

  /** A non-empty description in which no action verb occurs as a whole word. */
  predicate WeakDescription(description: string) {
    description != "" && !HasActionVerb(description)
  }

  /** A non-empty description in which the impact regex matches. */
  predicate QuantifiedDescription(description: string) {
    description != "" && HasImpact(description)
  }

  /** Some experience entry has a weak description. */
  predicate HasWeakDescriptions(exps: seq<Experience>) {
    exists i :: 0 <= i < |exps| && WeakDescription(exps[i].description)
  }

  /** Some experience entry has a quantified description. */
  predicate HasQuantifiableResults(exps: seq<Experience>) {
    exists i :: 0 <= i < |exps| && QuantifiedDescription(exps[i].description)
  }

  const EmailName := "email"
  const PhoneName := "phone"
  const LocationName := "location"

  /** The names of the empty fields among email, phone and location, in that order. */
  function MissingContacts(p: PersonalInfo): (r: seq<string>)
    ensures |r| <= 3
    ensures r == [] <==> p.email != "" && p.phone != "" && p.location != ""
    ensures EmailName in r <==> p.email == ""
  {
    (if p.email == "" then [EmailName] else [])
    + (if p.phone == "" then [PhoneName] else [])
    + (if p.location == "" then [LocationName] else [])
  }

  /** Whether check `rule` emits its suggestion for `d`. */
  predicate Fires(rule: Rule, d: ResumeData) {
    match rule
    case SummaryLength => SummaryTooShort(d)
    case ActionVerbs => |d.experience| > 0 && HasWeakDescriptions(d.experience)
    case QuantifyAchievements => |d.experience| > 0 && !HasQuantifiableResults(d.experience)
    case ContactInfo => |MissingContacts(d.personalInfo)| > 0
    case SkillsSection => |d.skills| == 0
    case KeywordsTip => true
  }

  // ---------------------------------------------------------------------
  // The suggestion records

  /** The record of a check whose texts are fixed. */
  function Fixed(id: string, kind: Kind, field: string, t: Texts, priority: Priority): Suggestion {
    Suggestion(id, kind, field, t.title, t.description, t.advice, priority)
  }

  /** The contact record; its description names the missing fields. */
  function ContactSuggestion(missing: seq<string>, w: Wording): Suggestion {
    Suggestion(
      ContactInfoId, Warning, PersonalInfoField, w.contactTitle,
      w.missingPrefix + Join(missing, ListSeparator) + w.missingSuffix,
      w.contactAdvice, High)
  }

  /** The suggestion check `rule` emits for `d`. */
  function Make(rule: Rule, d: ResumeData, w: Wording): (s: Suggestion)
    ensures s.id == Id(rule)
  {
    match rule
    case SummaryLength => Fixed(SummaryLengthId, Warning, SummaryField, w.summary, High)
    case ActionVerbs => Fixed(ActionVerbsId, Improvement, ExperienceField, w.actionVerbs, Medium)
    case QuantifyAchievements => Fixed(QuantifyId, Improvement, ExperienceField, w.quantify, High)
    case ContactInfo => ContactSuggestion(MissingContacts(d.personalInfo), w)
    case SkillsSection => Fixed(SkillsSectionId, Warning, SkillsField, w.skills, Medium)
    case KeywordsTip => Fixed(KeywordsTipId, Tip, GeneralField, w.keywords, Low)
  }

  /** The suggestion of `rule` when it fires for `d`, nothing otherwise. */
  function Emit(rule: Rule, d: ResumeData, w: Wording): seq<Suggestion> {
    if Fires(rule, d) then [Make(rule, d, w)] else []
  }

  /** `generateSuggestions` as a value: each check in turn appends its suggestion when it fires. */
  function EvaluateIn(d: ResumeData, w: Wording): (r: seq<Suggestion>)
    ensures |r| <= 6
  {
    Emit(SummaryLength, d, w) + Emit(ActionVerbs, d, w) + Emit(QuantifyAchievements, d, w)
    + Emit(ContactInfo, d, w) + Emit(SkillsSection, d, w) + Emit(KeywordsTip, d, w)
  }

  /** The suggestions the page gets for `d`. */
  function Evaluate(d: ResumeData): (r: seq<Suggestion>)
    ensures |r| <= 6
  {
    EvaluateIn(d, English)
  }

  /**
   * `generateSuggestions`: pushes the suggestion of each check that fires,
   * in order, with its texts taken from `wording`.
   */
  method GenerateSuggestions(resumeData: ResumeData, wording: Wording) returns (suggestions: seq<Suggestion>)
    ensures suggestions == EvaluateIn(resumeData, wording)
  {
    ghost var d, w := resumeData, wording;
    suggestions := [];

    if resumeData.summary == "" || |resumeData.summary| < 50 {
      suggestions := suggestions + [Make(SummaryLength, resumeData, wording)];
    }
    assert suggestions == Emit(SummaryLength, d, w);
    ghost var done := suggestions;

    if |resumeData.experience| > 0 {
      var hasWeakDescriptions := HasWeakDescriptions(resumeData.experience);
      if hasWeakDescriptions {
        suggestions := suggestions + [Make(ActionVerbs, resumeData, wording)];
      }
    }
    assert suggestions == done + Emit(ActionVerbs, d, w);
    done := suggestions;

    if |resumeData.experience| > 0 {
      var hasQuantifiableResults := HasQuantifiableResults(resumeData.experience);
      if !hasQuantifiableResults {
        suggestions := suggestions + [Make(QuantifyAchievements, resumeData, wording)];
      }
    }
    assert suggestions == done + Emit(QuantifyAchievements, d, w);
    done := suggestions;

    var missingContacts := CollectMissingContacts(resumeData.personalInfo);

    if |missingContacts| > 0 {
      suggestions := suggestions + [ContactSuggestion(missingContacts, wording)];
    }
    assert suggestions == done + Emit(ContactInfo, d, w);
    done := suggestions;

    if |resumeData.skills| == 0 {
      suggestions := suggestions + [Make(SkillsSection, resumeData, wording)];
    }
    assert suggestions == done + Emit(SkillsSection, d, w);
    done := suggestions;

    suggestions := suggestions + [Make(KeywordsTip, resumeData, wording)];
    assert suggestions == done + Emit(KeywordsTip, d, w);
  }

  /** The `missingContacts` list: pushes the name of each empty contact field, in order. */
  method CollectMissingContacts(p: PersonalInfo) returns (missingContacts: seq<string>)
    ensures missingContacts == MissingContacts(p)
  {
    missingContacts := [];
    if p.email == "" { missingContacts := missingContacts + [EmailName]; }
    if p.phone == "" { missingContacts := missingContacts + [PhoneName]; }
    if p.location == "" { missingContacts := missingContacts + [LocationName]; }
  }

  // ---------------------------------------------------------------------
  // The same evaluation, check by check

  /** The checks that fire for `d`. */
  function Firing(d: ResumeData): (on: set<Rule>)
    ensures forall rule :: rule in on <==> Fires(rule, d)
  {
    AllRules();
    set rule | rule in Rules && Fires(rule, d)
  }

  /** Every check is one of the six. */
  lemma AllRules()
    ensures forall rule :: rule in Rules
  {
    forall rule: Rule
      ensures rule in Rules
    {
      assert Rules[Rank(rule)] == rule;
    }
  }

  /** The checks are listed in increasing rank. */
  lemma RulesInOrder()
    ensures forall i, j :: 0 <= i < j < |Rules| ==> Rank(Rules[i]) < Rank(Rules[j])
  {
    forall i, j | 0 <= i < j < |Rules|
      ensures Rank(Rules[i]) < Rank(Rules[j])
    {
      assert Rank(Rules[i]) == i && Rank(Rules[j]) == j;
    }
  }

  /** The one-element contribution of `rule`: itself when it is in `on`, nothing otherwise. */
  function Step(rule: Rule, on: set<Rule>): seq<Rule> {
    if rule in on then [rule] else []
  }

  /** The members of `on` among `rules`, in the order of `rules`. */
  function Fired(rules: seq<Rule>, on: set<Rule>): (r: seq<Rule>)
    ensures |r| <= |rules|
  {
    if rules == [] then [] else Step(rules[0], on) + Fired(rules[1..], on)
  }

  /** The suggestion of each check in `rs`, in the same order. */
  function Render(rs: seq<Rule>, d: ResumeData, w: Wording): (r: seq<Suggestion>)
    ensures |r| == |rs|
    ensures forall i :: 0 <= i < |rs| ==> r[i] == Make(rs[i], d, w)
  {
    if rs == [] then [] else [Make(rs[0], d, w)] + Render(rs[1..], d, w)
  }

  /** The filter keeps exactly the members of `on` that are in `rules`. */
  lemma {:induction false} FiredMembers(rules: seq<Rule>, on: set<Rule>)
    ensures forall rule :: rule in Fired(rules, on) <==> rule in rules && rule in on
  {
    if rules != [] {
      FiredMembers(rules[1..], on);
      assert rules == [rules[0]] + rules[1..];
    }
  }

  /** The filter keeps the order: checks given in increasing rank are kept in increasing rank. */
  lemma {:induction false} FiredOrdered(rules: seq<Rule>, on: set<Rule>)
    requires forall i, j :: 0 <= i < j < |rules| ==> Rank(rules[i]) < Rank(rules[j])
    ensures forall i, j :: 0 <= i < j < |Fired(rules, on)| ==> Rank(Fired(rules, on)[i]) < Rank(Fired(rules, on)[j])
  {
    if rules != [] {
      FiredOrdered(rules[1..], on);
      HeadBelowRest(rules, on);
      if rules[0] in on {
        ConsOrdered(rules[0], Fired(rules[1..], on));
      }
    }
  }

  /** Among checks in increasing rank, the first ranks below every later check the filter keeps. */
  lemma HeadBelowRest(rules: seq<Rule>, on: set<Rule>)
    requires rules != []
    requires forall i, j :: 0 <= i < j < |rules| ==> Rank(rules[i]) < Rank(rules[j])
    ensures forall x :: x in Fired(rules[1..], on) ==> Rank(rules[0]) < Rank(x)
  {
    FiredMembers(rules[1..], on);
    forall x | x in Fired(rules[1..], on)
      ensures Rank(rules[0]) < Rank(x)
    {
      var k :| 0 <= k < |rules[1..]| && rules[1..][k] == x;
      assert rules[k + 1] == x;
    }
  }

  /** A check ranked below every check of an increasing list, put in front, keeps it increasing. */
  lemma ConsOrdered(x: Rule, rest: seq<Rule>)
    requires forall i, j :: 0 <= i < j < |rest| ==> Rank(rest[i]) < Rank(rest[j])
    requires forall y :: y in rest ==> Rank(x) < Rank(y)
    ensures forall i, j :: 0 <= i < j < |[x] + rest| ==> Rank(([x] + rest)[i]) < Rank(([x] + rest)[j])
  {
    var r := [x] + rest;
    forall i, j | 0 <= i < j < |r|
      ensures Rank(r[i]) < Rank(r[j])
    {
      assert r[j] == rest[j - 1];
      if i > 0 { assert r[i] == rest[i - 1]; } else { assert r[j] in rest; }
    }
  }

  /** Filtering the six checks is taking each of them in turn when it is in `on`. */
  lemma FiredSteps(on: set<Rule>)
    ensures Fired(Rules, on)
         == Step(SummaryLength, on) + (Step(ActionVerbs, on) + (Step(QuantifyAchievements, on)
          + (Step(ContactInfo, on) + (Step(SkillsSection, on) + Step(KeywordsTip, on)))))
  {
    var r1 := Rules[1..];
    var r2 := r1[1..];
    var r3 := r2[1..];
    var r4 := r3[1..];
    var r5 := r4[1..];
    assert Fired(r5[1..], on) == [];
    assert Fired(r5, on) == Step(KeywordsTip, on) + [];
    assert Fired(r4, on) == Step(SkillsSection, on) + Fired(r5, on);
    assert Fired(r3, on) == Step(ContactInfo, on) + Fired(r4, on);
    assert Fired(r2, on) == Step(QuantifyAchievements, on) + Fired(r3, on);
    assert Fired(r1, on) == Step(ActionVerbs, on) + Fired(r2, on);
    assert Fired(Rules, on) == Step(SummaryLength, on) + Fired(r1, on);
    assert Step(KeywordsTip, on) + [] == Step(KeywordsTip, on);
  }

  /** Rendering distributes over concatenation. */
  lemma RenderAppend(a: seq<Rule>, b: seq<Rule>, d: ResumeData, w: Wording)
    ensures Render(a + b, d, w) == Render(a, d, w) + Render(b, d, w)
  {
    var l, r := Render(a + b, d, w), Render(a, d, w) + Render(b, d, w);
    forall i | 0 <= i < |l|
      ensures l[i] == r[i]
    {
      if i < |a| { assert (a + b)[i] == a[i]; } else { assert (a + b)[i] == b[i - |a|]; }
    }
  }

  lemma RenderStep(rule: Rule, d: ResumeData, w: Wording)
    ensures Render(Step(rule, Firing(d)), d, w) == Emit(rule, d, w)
  {
  }

  /** The suggestions rendered from a filter of the six checks, grouped check by check. */
  lemma RenderFired(on: set<Rule>, d: ResumeData, w: Wording)
    ensures Render(Fired(Rules, on), d, w)
         == Render(Step(SummaryLength, on), d, w) + (Render(Step(ActionVerbs, on), d, w)
          + (Render(Step(QuantifyAchievements, on), d, w) + (Render(Step(ContactInfo, on), d, w)
          + (Render(Step(SkillsSection, on), d, w) + Render(Step(KeywordsTip, on), d, w)))))
  {
    FiredSteps(on);
    var s0, s1, s2, s3, s4, s5 := Step(SummaryLength, on), Step(ActionVerbs, on),
      Step(QuantifyAchievements, on), Step(ContactInfo, on), Step(SkillsSection, on), Step(KeywordsTip, on);
    RenderAppend(s0, s1 + (s2 + (s3 + (s4 + s5))), d, w);
    RenderAppend(s1, s2 + (s3 + (s4 + s5)), d, w);
    RenderAppend(s2, s3 + (s4 + s5), d, w);
    RenderAppend(s3, s4 + s5, d, w);
    RenderAppend(s4, s5, d, w);
  }

  lemma Reassociate<T>(a: seq<T>, b: seq<T>, c: seq<T>, d: seq<T>, e: seq<T>, f: seq<T>)
    ensures a + b + c + d + e + f == a + (b + (c + (d + (e + f))))
  {
    assert a + b + c + d + e + f == a + (b + c + d + e + f);
    assert b + c + d + e + f == b + (c + d + e + f);
    assert c + d + e + f == c + (d + e + f);
  }

  /** The evaluator's output is the suggestions of the checks that fire, in check order. */
  lemma EvaluateFired(d: ResumeData, w: Wording)
    ensures EvaluateIn(d, w) == Render(Fired(Rules, Firing(d)), d, w)
  {
    RenderFired(Firing(d), d, w);
    RenderStep(SummaryLength, d, w);
    RenderStep(ActionVerbs, d, w);
    RenderStep(QuantifyAchievements, d, w);
    RenderStep(ContactInfo, d, w);
    RenderStep(SkillsSection, d, w);
    RenderStep(KeywordsTip, d, w);
    Reassociate(Emit(SummaryLength, d, w), Emit(ActionVerbs, d, w), Emit(QuantifyAchievements, d, w),
                Emit(ContactInfo, d, w), Emit(SkillsSection, d, w), Emit(KeywordsTip, d, w));
  }

  // ---------------------------------------------------------------------
  // Properties of the evaluator

  /**
   * Between one and six suggestions, with distinct ids in the fixed order
   * summary-length, action-verbs, quantify-achievements, contact-info,
   * skills-section, keywords-tip; the last is always the keyword tip.
   */
  lemma Shape(d: ResumeData, w: Wording)
    ensures 1 <= |EvaluateIn(d, w)| <= 6
    ensures forall i, j :: 0 <= i < j < |EvaluateIn(d, w)| ==>
      IdRank(EvaluateIn(d, w)[i].id) < IdRank(EvaluateIn(d, w)[j].id)
    ensures forall i, j :: 0 <= i < j < |EvaluateIn(d, w)| ==> EvaluateIn(d, w)[i].id != EvaluateIn(d, w)[j].id
    ensures EvaluateIn(d, w)[|EvaluateIn(d, w)| - 1] == Make(KeywordsTip, d, w)
  {
    var rs, r := Fired(Rules, Firing(d)), EvaluateIn(d, w);
    EvaluateFired(d, w);
    FiredShape(Firing(d));
    forall i | 0 <= i < |r|
      ensures IdRank(r[i].id) == Rank(rs[i])
    {
      assert r[i] == Make(rs[i], d, w);
    }
  }

  /** Filtering the six checks, the tip among the kept ones: one to six checks in rank order, the tip last. */
  lemma FiredShape(on: set<Rule>)
    requires KeywordsTip in on
    ensures 1 <= |Fired(Rules, on)| <= 6
    ensures forall i, j :: 0 <= i < j < |Fired(Rules, on)| ==> Rank(Fired(Rules, on)[i]) < Rank(Fired(Rules, on)[j])
    ensures Fired(Rules, on)[|Fired(Rules, on)| - 1] == KeywordsTip
  {
    var rs := Fired(Rules, on);
    RulesInOrder();
    FiredOrdered(Rules, on);
    FiredMembers(Rules, on);
    assert Rules[5] == KeywordsTip;
    assert KeywordsTip in rs;
    forall i | 0 <= i < |rs| - 1
      ensures rs[i] != KeywordsTip
    {
      assert Rank(rs[i]) < Rank(rs[|rs| - 1]);
    }
  }

  /** The output has a suggestion with this id. */
  predicate HasId(r: seq<Suggestion>, id: string) {
    exists s :: s in r && s.id == id
  }

  /** Different checks emit different ids. */
  lemma IdInjective(a: Rule, b: Rule)
    ensures Id(a) == Id(b) ==> a == b
  {
    assert IdRank(Id(a)) == Rank(a) && IdRank(Id(b)) == Rank(b);
  }

  /** A check's id occurs among the rendered suggestions exactly when the check is rendered, and only with its own record. */
  lemma RenderedIds(rs: seq<Rule>, d: ResumeData, w: Wording, rule: Rule)
    ensures HasId(Render(rs, d, w), Id(rule)) <==> rule in rs
    ensures forall s :: s in Render(rs, d, w) && s.id == Id(rule) ==> s == Make(rule, d, w)
  {
    var r := Render(rs, d, w);
    if rule in rs {
      var k :| 0 <= k < |rs| && rs[k] == rule;
      assert r[k] == Make(rule, d, w);
    }
    forall s | s in r && s.id == Id(rule)
      ensures s == Make(rule, d, w) && rule in rs
    {
      var k :| 0 <= k < |r| && r[k] == s;
      assert s == Make(rs[k], d, w);
      IdInjective(rs[k], rule);
    }
  }

  /** A check's suggestion is in the output exactly when the check fires, and it is the check's own record. */
  lemma EmittedIff(d: ResumeData, w: Wording, rule: Rule)
    ensures HasId(EvaluateIn(d, w), Id(rule)) <==> Fires(rule, d)
    ensures forall s :: s in EvaluateIn(d, w) && s.id == Id(rule) ==> s == Make(rule, d, w)
  {
    EvaluateFired(d, w);
    FiredMembers(Rules, Firing(d));
    AllRules();
    RenderedIds(Fired(Rules, Firing(d)), d, w, rule);
  }

  /** summary-length: emitted exactly when the summary is shorter than 50 characters, the empty one included. */
  lemma SummaryLengthIff(d: ResumeData, w: Wording)
    ensures HasId(EvaluateIn(d, w), SummaryLengthId) <==> |d.summary| < 50
  {
    EmittedIff(d, w, SummaryLength);
  }

  /**
   * action-verbs: emitted exactly when there is experience and some
   * non-empty description has no action verb as a whole word.
   */
  lemma ActionVerbsIff(d: ResumeData, w: Wording)
    ensures HasId(EvaluateIn(d, w), ActionVerbsId) <==>
      |d.experience| > 0
      && exists i :: 0 <= i < |d.experience| && d.experience[i].description != ""
                     && !HasActionVerb(d.experience[i].description)
  {
    EmittedIff(d, w, ActionVerbs);
  }

  /** quantify-achievements: emitted exactly when there is experience and no description matches the impact regex. */
  lemma QuantifyIff(d: ResumeData, w: Wording)
    ensures HasId(EvaluateIn(d, w), QuantifyId) <==>
      |d.experience| > 0
      && forall i :: 0 <= i < |d.experience| ==> !MatchesImpactRegex(d.experience[i].description)
  {
    EmittedIff(d, w, QuantifyAchievements);
    forall i | 0 <= i < |d.experience| {
      ImpactReduction(d.experience[i].description);
    }
  }

  /** Experience whose descriptions are all empty triggers quantify-achievements but not action-verbs. */
  lemma EmptyDescriptions(d: ResumeData, w: Wording)
    requires |d.experience| > 0
    requires forall i :: 0 <= i < |d.experience| ==> d.experience[i].description == ""
    ensures HasId(EvaluateIn(d, w), QuantifyId)
    ensures !HasId(EvaluateIn(d, w), ActionVerbsId)
  {
    EmittedIff(d, w, QuantifyAchievements);
    EmittedIff(d, w, ActionVerbs);
  }

  /**
   * contact-info: emitted exactly when email, phone or location is empty;
   * the other personal fields are never looked at. Its description names
   * the missing fields.
   */
  lemma ContactInfoIff(d: ResumeData, w: Wording)
    ensures HasId(EvaluateIn(d, w), ContactInfoId) <==>
      d.personalInfo.email == "" || d.personalInfo.phone == "" || d.personalInfo.location == ""
    ensures forall s :: s in EvaluateIn(d, w) && s.id == ContactInfoId ==>
      s.description == w.missingPrefix + Join(MissingContacts(d.personalInfo), ListSeparator) + w.missingSuffix
  {
    EmittedIff(d, w, ContactInfo);
  }

  /** The position of a contact field name in the order email, phone, location. */
  function ContactRank(name: string): nat {
    if name == EmailName then 0 else if name == PhoneName then 1 else 2
  }

  /** The missing contact names: exactly the empty ones among email, phone and location, in that order. */
  lemma MissingContactsOrder(p: PersonalInfo)
    ensures forall i, j :: 0 <= i < j < |MissingContacts(p)| ==>
      ContactRank(MissingContacts(p)[i]) < ContactRank(MissingContacts(p)[j])
    ensures (EmailName in MissingContacts(p) <==> p.email == "")
         && (PhoneName in MissingContacts(p) <==> p.phone == "")
         && (LocationName in MissingContacts(p) <==> p.location == "")
    ensures forall n :: n in MissingContacts(p) ==> n == EmailName || n == PhoneName || n == LocationName
  {
  }

  /** skills-section: emitted exactly when there is no skill category, however empty the categories are. */
  lemma SkillsSectionIff(d: ResumeData, w: Wording)
    ensures HasId(EvaluateIn(d, w), SkillsSectionId) <==> |d.skills| == 0
  {
    EmittedIff(d, w, SkillsSection);
  }

  /** The type, priority and field fixed for each check's suggestion. */
  function Attributes(rule: Rule): (Kind, Priority, string) {
    match rule
    case SummaryLength => (Warning, High, SummaryField)
    case ActionVerbs => (Improvement, Medium, ExperienceField)
    case QuantifyAchievements => (Improvement, High, ExperienceField)
    case ContactInfo => (Warning, High, PersonalInfoField)
    case SkillsSection => (Warning, Medium, SkillsField)
    case KeywordsTip => (Tip, Low, GeneralField)
  }

  /** Every emitted suggestion carries the type, priority and field fixed for its id. */
  lemma FixedAttributes(d: ResumeData, w: Wording)
    ensures forall s :: s in EvaluateIn(d, w) ==>
      exists rule :: s.id == Id(rule) && (s.kind, s.priority, s.field) == Attributes(rule)
  {
    EvaluateFired(d, w);
    var rs, r := Fired(Rules, Firing(d)), EvaluateIn(d, w);
    forall s | s in r
      ensures exists rule :: s.id == Id(rule) && (s.kind, s.priority, s.field) == Attributes(rule)
    {
      var k :| 0 <= k < |r| && r[k] == s;
      assert s == Make(rs[k], d, w);
      MakeAttributes(rs[k], d, w);
    }
  }

  lemma MakeAttributes(rule: Rule, d: ResumeData, w: Wording)
    ensures var s := Make(rule, d, w); (s.kind, s.priority, s.field) == Attributes(rule)
  {
  }

  // ---------------------------------------------------------------------
  // Examples

  /**
   * The page's starting record: summary-length, contact-info naming all
   * three contact fields, skills-section and keywords-tip, in that order.
   */
  lemma InitialSuggestions(w: Wording)
    ensures |EvaluateIn(Initial(), w)| == 4
    ensures EvaluateIn(Initial(), w)[0].id == SummaryLengthId && EvaluateIn(Initial(), w)[1].id == ContactInfoId
         && EvaluateIn(Initial(), w)[2].id == SkillsSectionId && EvaluateIn(Initial(), w)[3].id == KeywordsTipId
    ensures EvaluateIn(Initial(), w)[1].description == w.missingPrefix + "email, phone, location" + w.missingSuffix
  {
    var d := Initial();
    assert MissingContacts(d.personalInfo) == [EmailName, PhoneName, LocationName];
    assert EvaluateIn(d, w) == [Make(SummaryLength, d, w), Make(ContactInfo, d, w),
                                Make(SkillsSection, d, w), Make(KeywordsTip, d, w)];
    JoinAllContacts();
  }

  lemma JoinAllContacts()
    ensures Join([EmailName, PhoneName, LocationName], ListSeparator) == "email, phone, location"
  {
    var names := [EmailName, PhoneName, LocationName];
    assert names[1..][1..] == [LocationName];
    assert Join(names[1..], ListSeparator) == PhoneName + ListSeparator + LocationName;
    assert Join(names, ListSeparator) == EmailName + ListSeparator + (PhoneName + ListSeparator + LocationName);
  }

  /** With the page's wording, the starting record's contact description names all three fields. */
  lemma InitialContactMessage()
    ensures Evaluate(Initial())[1].description
         == "Missing " + "email, phone, location" + " in your contact information."
  {
    InitialSuggestions(English);
  }

  /** A record with the given summary, personal details and experience, and one skill category. */
  function Sample(summary: string, p: PersonalInfo, exps: seq<Experience>): ResumeData {
    ResumeData(p, summary, exps, [], [SkillCategory("1", "Languages", ["Dafny"])])
  }

  /** A current job with the given description. */
  function Job(description: string): Experience {
    Experience("1", "Acme", "Engineer", "2020-01", "", true, description)
  }

  /** A description with a whole-word verb and a percentage triggers neither experience check. */
  lemma StrongDescriptionExample(summary: string, p: PersonalInfo, w: Wording)
    ensures !HasId(EvaluateIn(Sample(summary, p, [Job("Led a team of 5, increasing revenue by 20%")]), w), ActionVerbsId)
    ensures !HasId(EvaluateIn(Sample(summary, p, [Job("Led a team of 5, increasing revenue by 20%")]), w), QuantifyId)
  {
    var d := Sample(summary, p, [Job("Led a team of 5, increasing revenue by 20%")]);
    StrongDescription();
    assert QuantifiedDescription(d.experience[0].description);
    EmittedIff(d, w, ActionVerbs);
    EmittedIff(d, w, QuantifyAchievements);
  }

  /** A description with neither triggers both experience checks. */
  lemma WeakDescriptionExample(summary: string, p: PersonalInfo, w: Wording)
    ensures HasId(EvaluateIn(Sample(summary, p, [Job("Worked on things")]), w), ActionVerbsId)
    ensures HasId(EvaluateIn(Sample(summary, p, [Job("Worked on things")]), w), QuantifyId)
  {
    var d := Sample(summary, p, [Job("Worked on things")]);
    VagueDescription();
    assert WeakDescription(d.experience[0].description);
    EmittedIff(d, w, ActionVerbs);
    EmittedIff(d, w, QuantifyAchievements);
  }

  /** Only email and location empty: the contact description names exactly those two, in that order. */
  lemma ContactExample(d: ResumeData, w: Wording)
    requires d.personalInfo.email == "" && d.personalInfo.phone != "" && d.personalInfo.location == ""
    ensures HasId(EvaluateIn(d, w), ContactInfoId)
    ensures forall s :: s in EvaluateIn(d, w) && s.id == ContactInfoId ==>
      s.description == w.missingPrefix + "email, location" + w.missingSuffix
  {
    ContactInfoIff(d, w);
    assert MissingContacts(d.personalInfo) == [EmailName, LocationName];
    JoinEmailLocation();
  }

  lemma JoinEmailLocation()
    ensures Join([EmailName, LocationName], ListSeparator) == "email, location"
  {
    var names := [EmailName, LocationName];
    assert names[1..] == [LocationName];
    assert Join(names, ListSeparator) == EmailName + ListSeparator + LocationName;
  }
}
