/**
 * The resume editor form: its option table, the visibility rule of the
 * custom-instructions field, and the submit handler with its three ordered
 * checks, four progress steps and reset. Timers are abstracted away: each
 * step is one atomic transition. Notifications are appended, in order, to a
 * log of toasts; every point where the handler sets `isProcessing` or
 * `progress` appends one frame `(isProcessing, progress)` to a second log.
 */
module ResumeEditor {
  import opened Wrappers
  import opened JsText
  import opened DocsLink

  // ---------------------------------------------------------------------
  // The improvement options and the custom-instructions field
  // ---------------------------------------------------------------------

  datatype ImprovementOption = ImprovementOption(value: string, displayLabel: string)

  /** The fixed option table; the datalist offers each option's LABEL. */
  const ImprovementOptions: seq<ImprovementOption> := [
    ImprovementOption("ats-optimize", "Optimize for ATS (Applicant Tracking Systems)"),
    ImprovementOption("skills-enhance", "Enhance skills section"),
    ImprovementOption("achievements-focus", "Focus on achievements and metrics"),
    ImprovementOption("format-improve", "Improve formatting and structure"),
    ImprovementOption("language-polish", "Polish language and grammar"),
    ImprovementOption("industry-specific", "Tailor for specific industry"),
    ImprovementOption("custom", "Custom improvements")
  ]

  /** The custom-instructions field is rendered only when the typed text is exactly "custom". */
  predicate ShowsCustomInstructions(improvementType: string)
  {
    improvementType == "custom"
  }

  /**
   * Picking any entry the datalist offers never reveals the field: the
   * entries are labels, and no label is "custom". Only the last option has
   * "custom" as its VALUE, which the input never receives from the list.
   */
  lemma NoListedEntryRevealsInstructions()
    ensures |ImprovementOptions| == 7
    ensures forall k :: 0 <= k < |ImprovementOptions| ==> !ShowsCustomInstructions(ImprovementOptions[k].displayLabel)
    ensures forall k :: 0 <= k < |ImprovementOptions| ==>
      (ShowsCustomInstructions(ImprovementOptions[k].value) <==> k == |ImprovementOptions| - 1)
  {
  }

  // ---------------------------------------------------------------------
  // Notifications, checks and steps
  // ---------------------------------------------------------------------

  /** The messages the four simulated steps announce. */
  datatype StepMessage = AccessingDoc | AnalyzingContent | GeneratingImprovements | UpdatingDocument

  function MessageText(m: StepMessage): string
  {
    match m
    case AccessingDoc => "Accessing your Google Doc..."
    case AnalyzingContent => "Analyzing content with AI..."
    case GeneratingImprovements => "Generating improvements..."
    case UpdatingDocument => "Updating your document..."
  }

  /** One simulated processing step: the message it announces and the progress it reaches. */
  datatype Step = Step(message: StepMessage, progress: int)

  const Steps: seq<Step> := [
    Step(AccessingDoc, 25),
    Step(AnalyzingContent, 50),
    Step(GeneratingImprovements, 75),
    Step(UpdatingDocument, 100)
  ]

  /**
   * The toasts the handler can show. The log records which one was shown;
   * its title, description and variant are fixed by `Title`, `Description`
   * and `IsDestructive`.
   */
  datatype Toast =
    | MissingLinkToast | InvalidLinkToast | TypeRequiredToast
    | ProcessingToast(message: StepMessage) | SuccessToast | FailureToast

  function Title(t: Toast): string
  {
    match t
    case MissingLinkToast => "Missing Link"
    case InvalidLinkToast => "Invalid Link"
    case TypeRequiredToast => "Improvement Type Required"
    case ProcessingToast(_) => "Processing"
    case SuccessToast => "Resume Updated Successfully!"
    case FailureToast => "Processing Failed"
  }

  function Description(t: Toast): string
  {
    match t
    case MissingLinkToast => "Please paste your Google Docs link."
    case InvalidLinkToast => "Please enter a valid Google Docs link."
    case TypeRequiredToast => "Please select or write how you'd like to improve your resume."
    case ProcessingToast(m) => MessageText(m)
    case SuccessToast => "Your Google Doc has been enhanced. Refresh it to see the changes."
    case FailureToast => "There was an error improving your resume. Please try again."
  }

  /** The toast is shown with `variant: "destructive"`. */
  predicate IsDestructive(t: Toast)
  {
    t.MissingLinkToast? || t.InvalidLinkToast? || t.TypeRequiredToast? || t.FailureToast?
  }

  /** The four step messages are different texts. */
  lemma MessageTextsDistinct(m: StepMessage, n: StepMessage)
    requires MessageText(m) == MessageText(n)
    ensures m == n
  {
  }

  /** The title alone tells the toasts apart, except the four "Processing" ones. */
  lemma TitlesDistinct(t: Toast, u: Toast)
    requires Title(t) == Title(u)
    ensures t.ProcessingToast? == u.ProcessingToast?
    ensures !t.ProcessingToast? ==> t == u
  {
    assert |Title(t)| == |Title(u)|;
    if t.MissingLinkToast? || t.InvalidLinkToast? {
      assert Title(t)[0] == Title(u)[0];
    }
  }

  /** Recording a toast by its kind loses nothing: two toasts with the same texts are the same toast. */
  lemma ToastsDistinguishable(t: Toast, u: Toast)
    requires Title(t) == Title(u) && Description(t) == Description(u)
    ensures t == u
  {
    TitlesDistinct(t, u);
    if t.ProcessingToast? {
      MessageTextsDistinct(t.message, u.message);
    }
  }

  /** The three checks of the submit handler, in the order they run. */
  datatype ValidationError = MissingLink | InvalidLink | ImprovementTypeRequired

  function ErrorToast(e: ValidationError): (t: Toast)
    ensures IsDestructive(t)
  {
    match e
    case MissingLink => MissingLinkToast
    case InvalidLink => InvalidLinkToast
    case ImprovementTypeRequired => TypeRequiredToast
  }

  /**
   * The checks of the submit handler, first failure wins: a link whose
   * trimmed text is empty, then a link the validator rejects, then an
   * improvement type whose trimmed text is empty.
   */
  function CheckSubmission(link: string, improvementType: string): Option<ValidationError>
  {
    if Trim(link) == "" then Some(MissingLink)
    else if !ValidateGoogleDocsLink(link) then Some(InvalidLink)
    else if Trim(improvementType) == "" then Some(ImprovementTypeRequired)
    else None
  }

  /**
   * Which check fails, stated on the inputs: a blank link is always reported
   * as missing, a non-blank link the validator rejects as invalid, and only a
   * valid link lets the improvement type be checked. A submit is accepted
   * exactly when the link is valid and the improvement type is not blank.
   */
  lemma CheckSubmissionOrder(link: string, improvementType: string)
    ensures CheckSubmission(link, improvementType) == Some(MissingLink) <==> IsBlank(link)
    ensures CheckSubmission(link, improvementType) == Some(InvalidLink) <==>
      !IsBlank(link) && !ValidateGoogleDocsLink(link)
    ensures CheckSubmission(link, improvementType) == Some(ImprovementTypeRequired) <==>
      !IsBlank(link) && ValidateGoogleDocsLink(link) && IsBlank(improvementType)
    ensures CheckSubmission(link, improvementType) == None <==>
      ValidateGoogleDocsLink(link) && !IsBlank(improvementType)
  {
    AcceptedLinkIsNotBlank(link);
  }

  // ---------------------------------------------------------------------
  // The specification of one submit
  // ---------------------------------------------------------------------

  /** The five state variables of the component. */
  datatype FormState = FormState(
    link: string, instructions: string, improvementType: string,
    isProcessing: bool, progress: int)

  const InitialState: FormState := FormState("", "", "", false, 0)

  /** What the progress area shows between two state changes. */
  datatype Frame = Frame(isProcessing: bool, progress: int)

  /** A number of completed steps. */
  type StepCount = k: nat | k <= |Steps|

  /**
   * Nothing in the handler's `try` block can fail today; a failure is an
   * unexpected runtime fault. `ThrowsAfter(k)` raises it once `k` steps have
   * completed (with `k` = 4, before the success toast).
   */
  datatype Fault = NoFault | ThrowsAfter(completed: StepCount)

  datatype Outcome = Rejected(error: ValidationError) | Succeeded | Failed

  /** The new state, the toasts and the frames one submit produces, and how it ended. */
  datatype Run = Run(state: FormState, toasts: seq<Toast>, frames: seq<Frame>, outcome: Outcome)

  /** Whether the fault fires once `i` steps have completed. */
  predicate ThrowsAt(fault: Fault, i: nat)
  {
    fault.ThrowsAfter? && fault.completed == i
  }

  /** The number of steps a fault lets complete. */
  function StepsCompleted(fault: Fault): StepCount
  {
    if fault.NoFault? then |Steps| else fault.completed
  }

  /** The "Processing" toasts of the first `n` steps. */
  function StepToasts(n: StepCount): seq<Toast>
  {
    if n == 0 then [] else StepToasts(n - 1) + [ProcessingToast(Steps[n - 1].message)]
  }

  /** The frames of the first `n` steps. */
  function StepFrames(n: StepCount): seq<Frame>
  {
    if n == 0 then [] else StepFrames(n - 1) + [Frame(true, Steps[n - 1].progress)]
  }

  /** The frames of an accepted submit in which `n` steps complete. */
  function RunFrames(n: StepCount): seq<Frame>
  {
    [Frame(true, 0)] + StepFrames(n) + [Frame(false, 0)]
  }

  /**
   * The `try`/`catch`/`finally` part of `handleSubmit`, started in state `s`
   * once every check passed: the steps, then the success or failure toast,
   * then the reset.
   */
  function Processed(s: FormState, fault: Fault): Run
  {
    var n := StepsCompleted(fault);
    if fault.NoFault? then
      Run(InitialState, StepToasts(n) + [SuccessToast], RunFrames(n), Succeeded)
    else
      Run(s.(isProcessing := false, progress := 0), StepToasts(n) + [FailureToast], RunFrames(n), Failed)
  }

  /** `handleSubmit` started in state `s`, with the given fault. */
  function Submitted(s: FormState, fault: Fault): Run
  {
    match CheckSubmission(s.link, s.improvementType)
    case Some(e) => Run(s, [ErrorToast(e)], [], Rejected(e))
    case None => Processed(s, fault)
  }

  /** Appending to a log in two steps is appending the two parts at once. */
  lemma AppendTwice<T>(log: seq<T>, xs: seq<T>, ys: seq<T>)
    ensures log + xs + ys == log + (xs + ys)
  {
  }

  // ---------------------------------------------------------------------
  // Properties of one submit
  // ---------------------------------------------------------------------

  /** The number of destructive toasts in `ts`. */
  function DestructiveCount(ts: seq<Toast>): nat
  {
    if ts == [] then 0 else DestructiveCount(ts[..|ts| - 1]) + (if IsDestructive(ts[|ts| - 1]) then 1 else 0)
  }

  lemma {:induction false} DestructiveCountAppend(ts: seq<Toast>, us: seq<Toast>)
    ensures DestructiveCount(ts + us) == DestructiveCount(ts) + DestructiveCount(us)
    decreases |us|
  {
    if us == [] {
      assert ts + us == ts;
    } else {
      var init := us[..|us| - 1];
      assert (ts + us)[..|ts + us| - 1] == ts + init;
      assert (ts + us)[|ts + us| - 1] == us[|us| - 1];
      DestructiveCountAppend(ts, init);
    }
  }

  /** The first `n` steps announce, in step order, one "Processing" toast each. */
  lemma {:induction false} StepToastsInOrder(n: StepCount)
    ensures |StepToasts(n)| == n
    ensures forall j :: 0 <= j < n ==> StepToasts(n)[j] == ProcessingToast(Steps[j].message)
  {
    if n > 0 {
      StepToastsInOrder(n - 1);
    }
  }

  /** None of the step toasts is destructive. */
  lemma {:induction false} StepToastsNotDestructive(n: StepCount)
    ensures DestructiveCount(StepToasts(n)) == 0
  {
    if n > 0 {
      StepToastsNotDestructive(n - 1);
      DestructiveCountAppend(StepToasts(n - 1), [ProcessingToast(Steps[n - 1].message)]);
    }
  }

  /** The first `n` steps show the bar busy at each step's checkpoint, in step order. */
  lemma {:induction false} StepFramesInOrder(n: StepCount)
    ensures |StepFrames(n)| == n
    ensures forall j :: 0 <= j < n ==> StepFrames(n)[j] == Frame(true, Steps[j].progress)
  {
    if n > 0 {
      StepFramesInOrder(n - 1);
    }
  }

  /** Within a sequence of frames the progress never goes down. */
  predicate ProgressNeverDecreases(frames: seq<Frame>)
  {
    forall j, k :: 0 <= j <= k < |frames| ==> frames[j].progress <= frames[k].progress
  }

  /**
   * The frames of an accepted submit in which `n` steps complete: the bar
   * starts busy at 0, reaches the checkpoints 25, 50, 75, 100 of the
   * completed steps in order, never goes down while busy, and the final
   * frame is the reset to idle at 0.
   */
  lemma RunFramesShape(n: StepCount)
    ensures |RunFrames(n)| == n + 2
    ensures forall j :: 0 <= j <= n ==> RunFrames(n)[j].isProcessing
    ensures RunFrames(n)[0].progress == 0
    ensures forall j :: 1 <= j <= n ==> RunFrames(n)[j].progress == 25 * j
    ensures ProgressNeverDecreases(RunFrames(n)[..n + 1])
    ensures RunFrames(n)[n + 1] == Frame(false, 0)
  {
    StepFramesInOrder(n);
    var fs := RunFrames(n);
    forall j | 1 <= j <= n ensures fs[j].progress == 25 * j {
      assert fs[j] == StepFrames(n)[j - 1];
    }
    assert fs[0].progress == 0;
  }

  /**
   * A submit that fails a check changes no field, shows no frame, and shows
   * exactly one toast: the destructive one of the first failed check.
   */
  lemma RejectedSubmitChangesNothing(s: FormState, fault: Fault)
    requires CheckSubmission(s.link, s.improvementType).Some?
    ensures var e := CheckSubmission(s.link, s.improvementType).value;
      var run := Submitted(s, fault);
      run.outcome == Rejected(e) && run.state == s && run.frames == []
      && run.toasts == [ErrorToast(e)] && DestructiveCount(run.toasts) == 1
  {
  }

  /**
   * A submit is processed, and only then is anything set, exactly when the
   * link is valid and the improvement type is not blank.
   */
  lemma AcceptedSubmitIsProcessed(s: FormState, fault: Fault)
    ensures ValidateGoogleDocsLink(s.link) && !IsBlank(s.improvementType) ==>
      Submitted(s, fault) == Processed(s, fault)
    ensures !Submitted(s, fault).outcome.Rejected? <==>
      ValidateGoogleDocsLink(s.link) && !IsBlank(s.improvementType)
  {
    CheckSubmissionOrder(s.link, s.improvementType);
  }

  /**
   * Processing that meets no fault shows the frames (busy, 0), (busy, 25),
   * (busy, 50), (busy, 75), (busy, 100), (idle, 0), the four step toasts in
   * order followed by the success toast, none of them destructive, and
   * clears all three text fields.
   */
  lemma SuccessfulProcessing(s: FormState)
    ensures var run := Processed(s, NoFault);
      run.outcome == Succeeded && run.state == InitialState
      && run.frames == [Frame(true, 0), Frame(true, 25), Frame(true, 50),
                        Frame(true, 75), Frame(true, 100), Frame(false, 0)]
      && run.toasts == [ProcessingToast(Steps[0].message), ProcessingToast(Steps[1].message),
                        ProcessingToast(Steps[2].message), ProcessingToast(Steps[3].message), SuccessToast]
      && DestructiveCount(run.toasts) == 0
  {
    RunFramesShape(4);
    StepToastsInOrder(4);
    StepToastsNotDestructive(4);
    DestructiveCountAppend(StepToasts(4), [SuccessToast]);
  }

  /**
   * Processing that faults after `k` steps resets the bar to idle at 0 and
   * keeps the link, instructions and improvement type.
   */
  lemma FailedProcessingKeepsFields(s: FormState, k: StepCount)
    ensures var run := Processed(s, ThrowsAfter(k));
      run.outcome == Failed
      && run.state == FormState(s.link, s.instructions, s.improvementType, false, 0)
      && run.frames == RunFrames(k)
  {
  }

  /**
   * Processing that faults after `k` steps shows the toasts of those steps
   * and then the failure toast, the one destructive toast of the run.
   */
  lemma FailedProcessingToasts(s: FormState, k: StepCount)
    ensures var ts := Processed(s, ThrowsAfter(k)).toasts;
      |ts| == k + 1 && ts[k] == FailureToast
      && (forall j :: 0 <= j < k ==> ts[j] == ProcessingToast(Steps[j].message))
      && DestructiveCount(ts) == 1
  {
    var ts := Processed(s, ThrowsAfter(k)).toasts;
    assert ts == StepToasts(k) + [FailureToast];
    StepToastsInOrder(k);
    StepToastsNotDestructive(k);
    DestructiveCountAppend(StepToasts(k), [FailureToast]);
    assert DestructiveCount([FailureToast]) == 1 by {
      assert [FailureToast][..0] == [];
    }
  }

  /** A blank link is reported as missing whatever the improvement type, and nothing changes. */
  lemma BlankLinkReportedMissing(s: FormState, fault: Fault)
    requires IsBlank(s.link)
    ensures Submitted(s, fault) == Run(s, [ErrorToast(MissingLink)], [], Rejected(MissingLink))
    ensures Title(ErrorToast(MissingLink)) == "Missing Link"
  {
    CheckSubmissionOrder(s.link, s.improvementType);
  }

  /** Every entry the datalist offers passes the improvement-type check. */
  lemma ListedEntriesAreNotBlank()
    ensures forall k :: 0 <= k < |ImprovementOptions| ==> !IsBlank(ImprovementOptions[k].displayLabel)
  {
    forall k | 0 <= k < |ImprovementOptions| ensures !IsBlank(ImprovementOptions[k].displayLabel) {
      var entry := ImprovementOptions[k].displayLabel;
      assert !IsTrimmable(entry[|entry| - 1]);
    }
  }

  /** A typical document link with any datalist entry passes every check. */
  lemma SampleSubmitAccepted(link: string, k: nat)
    requires link == "https://docs.google.com/document/d/ABC123xyz"
    requires k < |ImprovementOptions|
    ensures CheckSubmission(link, ImprovementOptions[k].displayLabel) == None
  {
    SampleLinkAccepted();
    ListedEntriesAreNotBlank();
    CheckSubmissionOrder(link, ImprovementOptions[k].displayLabel);
  }

  /** A typical document link with the first entry ("Optimize for ATS ...") runs to success and clears the form. */
  lemma SampleSubmitSucceeds(s: FormState)
    requires s.link == "https://docs.google.com/document/d/ABC123xyz"
    requires s.improvementType == ImprovementOptions[0].displayLabel
    ensures Submitted(s, NoFault).outcome == Succeeded
    ensures Submitted(s, NoFault).state == InitialState
  {
    SampleSubmitAccepted(s.link, 0);
  }

  /** An empty link is reported missing, and a link to another site invalid. */
  lemma SampleSubmitsRejected(improvementType: string, fault: Fault)
    ensures Submitted(FormState("", "", improvementType, false, 0), fault).outcome == Rejected(MissingLink)
    ensures Submitted(FormState("https://example.com/doc", "", improvementType, false, 0), fault).outcome
         == Rejected(InvalidLink)
  {
    SampleLinksRejected();
    assert !IsTrimmable("https://example.com/doc"[0]);
    CheckSubmissionOrder("", improvementType);
    CheckSubmissionOrder("https://example.com/doc", improvementType);
  }

  // ---------------------------------------------------------------------
  // The component
  // ---------------------------------------------------------------------

  class Editor {
    var link: string
    var instructions: string
    var improvementType: string
    var isProcessing: bool
    var progress: int
    /** Every toast shown so far, oldest first. */
    var toasts: seq<Toast>
    /** Every frame of the progress area so far, oldest first. */
    var frames: seq<Frame>

    function State(): FormState
      reads this
    {
      FormState(link, instructions, improvementType, isProcessing, progress)
    }

    /** Between handler runs no submit is in flight and the progress bar is at 0. */
    predicate Idle()
      reads this
    {
      !isProcessing && progress == 0
    }

    /** Mounting the component: every field at its initial value, nothing shown yet. */
    constructor ()
      ensures State() == InitialState && Idle()
      ensures toasts == [] && frames == []
    {
      link, instructions, improvementType := "", "", "";
      isProcessing, progress := false, 0;
      toasts, frames := [], [];
    }

    /** Typing in the link input, which is disabled while processing. */
    method EditLink(value: string)
      requires Idle()
      modifies this
      ensures State() == old(State()).(link := value)
      ensures toasts == old(toasts) && frames == old(frames)
    {
      link := value;
    }

    /** Typing in, or picking a datalist entry for, the improvement-type input. */
    method EditImprovementType(value: string)
      requires Idle()
      modifies this
      ensures State() == old(State()).(improvementType := value)
      ensures toasts == old(toasts) && frames == old(frames)
    {
      improvementType := value;
    }

    /** Typing in the custom-instructions field, which exists only while it is shown. */
    method EditInstructions(value: string)
      requires Idle() && ShowsCustomInstructions(improvementType)
      modifies this
      ensures State() == old(State()).(instructions := value)
      ensures toasts == old(toasts) && frames == old(frames)
    {
      instructions := value;
    }

    /**
     * `handleSubmit`. The button is disabled while processing, so a submit
     * always starts idle; it ends idle whatever happens.
     */
    method Submit(fault: Fault) returns (outcome: Outcome)
      requires Idle()
      modifies this
      ensures Idle()
      ensures var run := Submitted(old(State()), fault);
        State() == run.state && outcome == run.outcome
        && toasts == old(toasts) + run.toasts
        && frames == old(frames) + run.frames
    {
      var check := CheckSubmission(link, improvementType);
      if check.Some? {
        toasts := toasts + [ErrorToast(check.value)];
        return Rejected(check.value);
      }
      outcome := Process(fault);
    }

    /** The `try`/`catch`/`finally` part of `handleSubmit`, entered once every check passed. */
    method Process(fault: Fault) returns (outcome: Outcome)
      requires Idle()
      modifies this
      ensures Idle()
      ensures var run := Processed(old(State()), fault);
        State() == run.state && outcome == run.outcome
        && toasts == old(toasts) + run.toasts
        && frames == old(frames) + run.frames
    {
      isProcessing, progress := true, 0;
      frames := frames + [Frame(isProcessing, progress)];
      var completed := RunSteps(fault);
      AppendTwice(old(toasts), StepToasts(completed), [if ThrowsAt(fault, completed) then FailureToast else SuccessToast]);
      if ThrowsAt(fault, completed) {
        toasts := toasts + [FailureToast];
        outcome := Failed;
      } else {
        toasts := toasts + [SuccessToast];
        link, instructions, improvementType := "", "", "";
        outcome := Succeeded;
      }
      // the finally block
      isProcessing, progress := false, 0;
      AppendTwice(old(frames), [Frame(true, 0)], StepFrames(completed));
      AppendTwice(old(frames), [Frame(true, 0)] + StepFrames(completed), [Frame(false, 0)]);
      frames := frames + [Frame(isProcessing, progress)];
    }

    /**
     * The `for` loop over the steps: each step moves the bar to its
     * checkpoint and announces itself, until the steps run out or the fault
     * fires.
     */
    method RunSteps(fault: Fault) returns (completed: StepCount)
      requires isProcessing && progress == 0
      modifies this
      ensures completed == StepsCompleted(fault)
      ensures State() == old(State()).(progress := if completed == 0 then 0 else Steps[completed - 1].progress)
      ensures toasts == old(toasts) + StepToasts(completed)
      ensures frames == old(frames) + StepFrames(completed)
    {
      completed := 0;
      while completed < |Steps| && !ThrowsAt(fault, completed)
        invariant fault.ThrowsAfter? ==> completed <= fault.completed
        invariant State() == old(State()).(progress := progress)
        invariant progress == if completed == 0 then 0 else Steps[completed - 1].progress
        invariant toasts == old(toasts) + StepToasts(completed)
        invariant frames == old(frames) + StepFrames(completed)
      {
        progress := Steps[completed].progress;
        AppendTwice(old(frames), StepFrames(completed), [Frame(true, progress)]);
        AppendTwice(old(toasts), StepToasts(completed), [ProcessingToast(Steps[completed].message)]);
        frames := frames + [Frame(isProcessing, progress)];
        toasts := toasts + [ProcessingToast(Steps[completed].message)];
        completed := completed + 1;
      }
    }
  }
}
