/**
 * The page: it owns the resume record and the flag that shows the
 * suggestions dialog, both as state cells that are replaced wholesale by
 * their setters. The form hands every edited record to `SetResumeData`; the
 * dialog, while open, reads the record and never writes it.
 */
module Page {
  import opened Resume
  import opened Suggestions

  class Page {
    var resumeData: ResumeData
    var showSuggestions: bool

    /** The page as first rendered: an empty record, the dialog closed. */
    constructor()
      ensures resumeData == Initial()
      ensures !showSuggestions
    {
      resumeData := Initial();
      showSuggestions := false;
    }

    /** `setResumeData(data)`, as called by the form with an edited record. */
    method SetResumeData(data: ResumeData)
      modifies this
      ensures resumeData == data
      ensures showSuggestions == old(showSuggestions)
    {
      resumeData := data;
    }

    /** `handleAISuggestions`: opens the dialog and leaves the record alone. */
    method HandleAISuggestions()
      modifies this
      ensures showSuggestions
      ensures resumeData == old(resumeData)
    {
      showSuggestions := true;
    }

    /** The dialog's `onClose`: closes it and leaves the record alone. */
    method CloseSuggestions()
      modifies this
      ensures !showSuggestions
      ensures resumeData == old(resumeData)
    {
      showSuggestions := false;
    }

    /**
     * The dialog's `onApplySuggestion`: the page only logs the field and the
     * advice, so nothing of its state changes.
     */
    method ApplySuggestion(field: string, advice: string)
      ensures resumeData == old(resumeData)
      ensures showSuggestions == old(showSuggestions)
    {
    }

    /**
     * The dialog's analysis of the current record: the suggestions the
     * evaluator gives for it, computed without changing the page.
     */
    method RequestSuggestions() returns (suggestions: seq<Suggestion>)
      requires showSuggestions
      ensures suggestions == Evaluate(resumeData)
    {
      suggestions := GenerateSuggestions(resumeData, English);
    }
  }

  /**
   * A fresh page, once its dialog is opened, suggests exactly the summary,
   * contact, skills and keywords advice, and its record is still empty.
   */
  method OpenOnFreshPage() returns (page: Page, suggestions: seq<Suggestion>)
    ensures page.resumeData == Initial() && page.showSuggestions
    ensures |suggestions| == 4
    ensures suggestions[0].id == SummaryLengthId && suggestions[1].id == ContactInfoId
    ensures suggestions[2].id == SkillsSectionId && suggestions[3].id == KeywordsTipId
  {
    page := new Page();
    page.HandleAISuggestions();
    suggestions := page.RequestSuggestions();
    InitialSuggestions(English);
  }
}
