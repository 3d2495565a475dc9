/**
 * The two regular expressions of the suggestion rules, written out as
 * string predicates.
 *
 * Action verbs: `/\b(achieved|managed|led|...|launched)\b/i` matches when
 * one of the eleven verbs occurs, in any letter case, with a word boundary
 * on both sides.
 *
 * Measured impact: `/\d+%|\$\d+|\d+\+|increased|decreased|improved/i` has
 * no word boundaries at all: it matches a run of digits followed by `%` or
 * `+`, a `$` followed by a run of digits, or one of three words anywhere,
 * even inside a longer word.
 */
module Patterns {
  import opened Text

  const StrongVerbs: seq<string> := [
    "achieved", "managed", "led", "developed", "implemented", "improved",
    "increased", "reduced", "created", "designed", "launched"
  ]

  const ImpactWords: seq<string> := ["increased", "decreased", "improved"]

  /** `\b` at position `p`: exactly one of the two neighbours is a word character. */
  predicate Boundary(s: string, p: int)
    requires 0 <= p <= |s|
  {
    (p > 0 && IsWordChar(s[p - 1])) != (p < |s| && IsWordChar(s[p]))
  }

  /** `\b w \b` matches at position `i`, ignoring case. */
  predicate WordAt(s: string, i: int, w: string) {
    LowerPrefixAt(s, i, w) && Boundary(s, i) && Boundary(s, i + |w|)
  }

  /** The action-verb regex finds a match somewhere in `s`. */
  predicate HasActionVerb(s: string) {
    exists i, j :: 0 <= i <= |s| && 0 <= j < |StrongVerbs| && WordAt(s, i, StrongVerbs[j])
  }

  /** `s[i..j]` is a non-empty run of digits (`\d+`). */
  predicate DigitRun(s: string, i: int, j: int) {
    0 <= i < j <= |s| && forall k :: i <= k < j ==> IsDigit(s[k])
  }

  /** `s[i..j]` is `$` followed by a run of digits (`\$\d+`). */
  predicate DollarRun(s: string, i: int, j: int) {
    0 <= i < |s| && s[i] == '$' && DigitRun(s, i + 1, j)
  }

  /** Some alternative of the impact regex matches starting at position `i`, read literally. */
  ghost predicate ImpactRegexAt(s: string, i: int) {
    || (exists j :: DigitRun(s, i, j) && j < |s| && s[j] == '%')
    || (exists j :: DollarRun(s, i, j))
    || (exists j :: DigitRun(s, i, j) && j < |s| && s[j] == '+')
    || (exists m :: 0 <= m < |ImpactWords| && LowerPrefixAt(s, i, ImpactWords[m]))
  }

  /** The impact regex finds a match somewhere in `s`, read literally. */
  ghost predicate MatchesImpactRegex(s: string) {
    exists i :: 0 <= i <= |s| && ImpactRegexAt(s, i)
  }

  /**
   * The same alternatives reduced to what a match needs: a digit next to
   * `%` or `+`, a `$` next to a digit, or one of the three words.
   */
  predicate ImpactAt(s: string, i: int)
    requires 0 <= i < |s|
  {
    || (i + 1 < |s| && IsDigit(s[i]) && (s[i + 1] == '%' || s[i + 1] == '+'))
    || (i + 1 < |s| && s[i] == '$' && IsDigit(s[i + 1]))
    || LowerPrefixAt(s, i, ImpactWords[0])
    || LowerPrefixAt(s, i, ImpactWords[1])
    || LowerPrefixAt(s, i, ImpactWords[2])
  }

  /** The impact test the evaluator runs on a description. */
  predicate HasImpact(s: string) {
    exists i :: 0 <= i < |s| && ImpactAt(s, i)
  }

  /** The reduced test agrees with the regex on every string. */
  lemma ImpactReduction(s: string)
    ensures HasImpact(s) <==> MatchesImpactRegex(s)
  {
    if HasImpact(s) {
      var i :| 0 <= i < |s| && ImpactAt(s, i);
      if i + 1 < |s| && IsDigit(s[i]) && s[i + 1] == '%' {
        assert DigitRun(s, i, i + 1);
      } else if i + 1 < |s| && IsDigit(s[i]) && s[i + 1] == '+' {
        assert DigitRun(s, i, i + 1);
      } else if i + 1 < |s| && s[i] == '$' && IsDigit(s[i + 1]) {
        assert DollarRun(s, i, i + 2);
      } else {
        var m := if LowerPrefixAt(s, i, ImpactWords[0]) then 0
                 else if LowerPrefixAt(s, i, ImpactWords[1]) then 1 else 2;
        assert LowerPrefixAt(s, i, ImpactWords[m]);
      }
      assert ImpactRegexAt(s, i);
    }
    if MatchesImpactRegex(s) {
      var i :| 0 <= i <= |s| && ImpactRegexAt(s, i);
      if j :| DigitRun(s, i, j) && j < |s| && s[j] == '%' {
        assert ImpactAt(s, j - 1);
      } else if j :| DollarRun(s, i, j) {
        assert ImpactAt(s, i);
      } else if j :| DigitRun(s, i, j) && j < |s| && s[j] == '+' {
        assert ImpactAt(s, j - 1);
      } else {
        var m :| 0 <= m < |ImpactWords| && LowerPrefixAt(s, i, ImpactWords[m]);
        assert ImpactAt(s, i);
      }
    }
  }

  /** Letter case never decides whether an action verb is found. */
  lemma {:induction false} ActionVerbIgnoresCase(s: string)
    ensures HasActionVerb(s) <==> HasActionVerb(LowerAll(s))
  {
    var t := LowerAll(s);
    forall p | 0 <= p <= |s|
      ensures Boundary(s, p) == Boundary(t, p)
    {
      if p > 0 { LowerKeepsWordChar(s[p - 1]); }
      if p < |s| { LowerKeepsWordChar(s[p]); }
    }
    forall q | 0 <= q < |s|
      ensures Lower(t[q]) == Lower(s[q])
    {
      LowerIdempotent(s[q]);
    }
    if HasActionVerb(s) {
      var i, j :| 0 <= i <= |s| && 0 <= j < |StrongVerbs| && WordAt(s, i, StrongVerbs[j]);
      assert WordAt(t, i, StrongVerbs[j]);
    }
    if HasActionVerb(t) {
      var i, j :| 0 <= i <= |t| && 0 <= j < |StrongVerbs| && WordAt(t, i, StrongVerbs[j]);
      assert WordAt(s, i, StrongVerbs[j]);
    }
  }

  lemma LowerKeepsWordChar(c: char)
    ensures IsWordChar(Lower(c)) == IsWordChar(c)
  {
  }

  lemma LowerIdempotent(c: char)
    ensures Lower(Lower(c)) == Lower(c)
  {
  }

  /** "led" inside "ledger" or "misled" is not a whole word; "Led" at the start of a sentence is. */
  lemma WholeWordsOnly()
    ensures !HasActionVerb("ledger")
    ensures !HasActionVerb("misled")
    ensures HasActionVerb("Led a team")
  {
    assert WordAt("Led a team", 0, StrongVerbs[2]);
  }

  /** No boundaries in the impact regex: "unimproved" matches, and so does "20%". */
  lemma ImpactInsideWords()
    ensures HasImpact("unimproved")
    ensures HasImpact("by 20%")
    ensures !HasImpact("Worked on things")
  {
    assert ImpactAt("unimproved", 2);
    assert ImpactAt("by 20%", 4);
    var s := "Worked on things";
    forall i | 0 <= i < |s|
      ensures !ImpactAt(s, i)
    {
      assert !IsDigit(s[i]) && s[i] != '$';
      assert i + 9 <= |s| ==> Lower(s[i]) != ImpactWords[0][0];
      assert i + 9 <= |s| ==> Lower(s[i]) != ImpactWords[1][0] || Lower(s[i + 1]) != ImpactWords[1][1];
      assert i + 8 <= |s| ==> Lower(s[i]) != ImpactWords[2][0];
    }
  }

  /** The first letters of the action verbs. */
  const VerbInitials := "amldirc"

  lemma VerbsStartWith()
    ensures forall j :: 0 <= j < |StrongVerbs| ==> StrongVerbs[j][0] in VerbInitials
  {
  }

  /** No action verb is found when no word of `s` starts with a verb's first letter. */
  lemma NoVerbStart(s: string)
    requires forall i :: 0 <= i < |s| && Boundary(s, i) ==> Lower(s[i]) !in VerbInitials
    ensures !HasActionVerb(s)
  {
    VerbsStartWith();
    forall i, j | 0 <= i <= |s| && 0 <= j < |StrongVerbs|
      ensures !WordAt(s, i, StrongVerbs[j])
    {
      if i < |s| && LowerPrefixAt(s, i, StrongVerbs[j]) {
        assert Lower(s[i]) == StrongVerbs[j][0];
      }
    }
  }

  /** A vague description: no action verb, no measured impact. */
  lemma VagueDescription()
    ensures !HasActionVerb("Worked on things")
    ensures !HasImpact("Worked on things")
  {
    var s := "Worked on things";
    forall i | 0 <= i < |s| && Boundary(s, i)
      ensures Lower(s[i]) !in VerbInitials
    {
    }
    NoVerbStart(s);
    ImpactInsideWords();
  }

  /** A strong description: a whole-word verb and a percentage. */
  lemma StrongDescription()
    ensures HasActionVerb("Led a team of 5, increasing revenue by 20%")
    ensures HasImpact("Led a team of 5, increasing revenue by 20%")
  {
    LeadingVerb("Led a team of 5, increasing revenue by 20%");
    TrailingPercent("Led a team of 5, increasing revenue by 20%");
  }

  /** A description opening with the word "led", in any case, has an action verb. */
  lemma LeadingVerb(s: string)
    requires |s| >= 4 && Lower(s[0]) == 'l' && Lower(s[1]) == 'e' && Lower(s[2]) == 'd' && !IsWordChar(s[3])
    ensures HasActionVerb(s)
  {
    assert WordAt(s, 0, StrongVerbs[2]);
  }

  /** A description ending in a digit and `%` shows measured impact. */
  lemma TrailingPercent(s: string)
    requires |s| >= 2 && IsDigit(s[|s| - 2]) && s[|s| - 1] == '%'
    ensures HasImpact(s)
  {
    assert ImpactAt(s, |s| - 2);
  }
}
