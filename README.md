# Resume editor form — Dafny model

This project models the behaviour of the AI resume editor form component
(`src/components/ResumeEditor.tsx`):

- **The Google Docs link validator.** The source's regular expression has no
  anchors, so it accepts any text that contains
  `https://docs.google.com/document/d/` followed immediately by one id
  character (`[a-zA-Z0-9-_]`). The model writes this out as a scan over start
  positions (`DocsLink.FirstMatchFrom`).
- **The submit handler.** It runs three checks in order: a blank link, then an
  invalid link, then a blank improvement type. The first check that fails
  shows one destructive toast and returns without changing anything. Once all
  checks pass, it:
  1. sets the bar busy at 0;
  2. walks four fixed steps, to 25, 50, 75 and 100, announcing each with a
     "Processing" toast;
  3. shows the success toast and clears the three text fields;
  4. in `finally`, resets `isProcessing` and `progress`.

  `ResumeEditor.Editor` is a class with the component's five state variables.
  Its `Submit`, `Process` and `RunSteps` methods perform the handler step by
  step, and each one is proved against a specification function
  (`Submitted`, `Processed`, `StepToasts`/`StepFrames`). The lemmas then state
  the handler's promises about those functions.
- **The option table and the custom-instructions rule.** The table has seven
  `(value, label)` entries, and the datalist offers the labels. The
  custom-instructions field appears only when the typed text is exactly
  `"custom"`.

Modules:

- `Wrappers`: `Option`.
- `JsText`: JavaScript's `String.prototype.trim` over a fixed whitespace set,
  namely the ECMAScript WhiteSpace and LineTerminator characters.
- `DocsLink`: the validator.
- `ResumeEditor`: the table, the toasts, the checks, the run specification,
  its lemmas and the `Editor` class.

The handler's observable behaviour is recorded in two logs that it appends
to:

- `toasts`, in the order they are shown. Each entry is a `Toast` kind, and
  `Title`, `Description` and `IsDestructive` give its exact text and variant.
- `frames`, one `(isProcessing, progress)` pair for every point where the
  handler sets those fields (lines 66-67, 80 and 117-118).

Nothing in the `try` block can throw today. To cover the `catch` path anyway,
`Submit` takes a `Fault` parameter: `ThrowsAfter(k)` raises the fault once `k`
steps have completed.

Where the behaviour differs from a natural reading of the form, the model
follows the code:

- The `catch` path does not clear `link`, `instructions` or `improvementType`.
  Only `finally` resets `isProcessing` and `progress`
  (`FailedProcessingKeepsFields`).
- The custom-instructions field is tied to the value `"custom"`, but the
  datalist puts labels into the input, such as `"Custom improvements"`. So no
  entry picked from the list ever reveals the field
  (`NoListedEntryRevealsInstructions`).

## Model

| member | source | states |
|---|---|---|
| JsText.Trim | src/components/ResumeEditor.tsx:39 | the trimmed text is a slice of the input with only whitespace cut off on either side; it is empty exactly when the input is all whitespace, and otherwise starts and ends with a non-whitespace character |
| DocsLink.FirstMatchFrom | src/components/ResumeEditor.tsx:33-36 | returns the leftmost position at or after `from` where the prefix is followed by an id character, or none when no such position exists |
| DocsLink.ValidateGoogleDocsLink | src/components/ResumeEditor.tsx:33-36 | true exactly when some index of the input starts the prefix `https://docs.google.com/document/d/` followed by a character of `[a-zA-Z0-9-_]` |
| DocsLink.AcceptsEmbeddedLink | src/components/ResumeEditor.tsx:34-35 | any text before the prefix and after the first id character is allowed: such a string is accepted |
| DocsLink.AcceptedLinkDecomposes | src/components/ResumeEditor.tsx:34-35 | conversely, every accepted input is some text, the prefix, an id character and some text |
| DocsLink.AcceptanceSurvivesExtension | src/components/ResumeEditor.tsx:34-35 | the pattern is unanchored: adding text on either side of an accepted input keeps it accepted |
| DocsLink.AcceptedLinkIsNotBlank | src/components/ResumeEditor.tsx:39-55 | an accepted link is never blank, so the missing-link check cannot hide a valid link |
| DocsLink.ShortInputRejected | src/components/ResumeEditor.tsx:34 | an input no longer than the prefix is rejected, since the id needs at least one character |
| DocsLink.SampleLinkAccepted | src/components/ResumeEditor.tsx:34-35 | `https://docs.google.com/document/d/ABC123xyz` is accepted |
| DocsLink.SampleLinksRejected | src/components/ResumeEditor.tsx:34-35 | `https://example.com/doc`, the empty string and the bare prefix are rejected |
| ResumeEditor.NoListedEntryRevealsInstructions | src/components/ResumeEditor.tsx:172-179 | the table has seven entries; no label (what the datalist offers) shows the custom-instructions field; a value shows it exactly for the last entry, `custom` |
| ResumeEditor.ListedEntriesAreNotBlank | src/components/ResumeEditor.tsx:57-64 | every label the datalist offers passes the improvement-type check |
| ResumeEditor.MessageTextsDistinct | src/components/ResumeEditor.tsx:71-76 | the four step messages are pairwise different texts |
| ResumeEditor.TitlesDistinct | src/components/ResumeEditor.tsx:39-115 | the toast title alone identifies every toast except the four "Processing" ones, which share one title |
| ResumeEditor.ToastsDistinguishable | src/components/ResumeEditor.tsx:39-115 | two toasts with the same title and description are the same toast, so a log of toast kinds records exactly what was shown |
| ResumeEditor.ErrorToast | src/components/ResumeEditor.tsx:39-64 | the toast of every failed check is destructive |
| ResumeEditor.CheckSubmissionOrder | src/components/ResumeEditor.tsx:39-64 | first failure wins: "Missing Link" exactly when the link is blank; "Invalid Link" exactly when it is not blank and the validator rejects it; "Improvement Type Required" exactly when the link is valid and the type blank; accepted exactly when the link is valid and the type not blank |
| ResumeEditor.RejectedSubmitChangesNothing | src/components/ResumeEditor.tsx:39-64 | a submit that fails a check leaves all five fields unchanged, shows no frame, and shows exactly one toast, that of the first failed check, which is the run's one destructive toast |
| ResumeEditor.BlankLinkReportedMissing | src/components/ResumeEditor.tsx:39-46 | a blank link is reported as "Missing Link" whatever the improvement type, and nothing else happens |
| ResumeEditor.AcceptedSubmitIsProcessed | src/components/ResumeEditor.tsx:39-69 | a submit goes on to processing, rather than being rejected, exactly when the link is valid and the improvement type is not blank |
| ResumeEditor.StepToastsInOrder | src/components/ResumeEditor.tsx:78-86 | the first `n` steps announce one "Processing" toast each, in step order |
| ResumeEditor.StepToastsNotDestructive | src/components/ResumeEditor.tsx:82-85 | no step toast is destructive |
| ResumeEditor.StepFramesInOrder | src/components/ResumeEditor.tsx:78-81 | the first `n` steps show the bar busy at each step's checkpoint, in step order |
| ResumeEditor.RunFramesShape | src/components/ResumeEditor.tsx:66-119 | an accepted submit with `n` completed steps shows `n + 2` frames: busy throughout until the last, starting at 0, frame `j` at `25 * j`, progress never decreasing while busy, and finally idle at 0 |
| ResumeEditor.SuccessfulProcessing | src/components/ResumeEditor.tsx:66-119 | without a fault the frames are exactly (busy, 0), (busy, 25), (busy, 50), (busy, 75), (busy, 100), (idle, 0); the toasts are the four step toasts in order, then the success toast, none destructive; all three text fields are cleared |
| ResumeEditor.FailedProcessingKeepsFields | src/components/ResumeEditor.tsx:109-119 | a fault after `k` steps ends the run failed, resets `isProcessing` and `progress`, and keeps `link`, `instructions` and `improvementType` |
| ResumeEditor.FailedProcessingToasts | src/components/ResumeEditor.tsx:109-115 | a fault after `k` steps shows the `k` step toasts in order, then the failure toast, which is the run's one destructive toast |
| ResumeEditor.SampleSubmitAccepted | src/components/ResumeEditor.tsx:39-64 | `https://docs.google.com/document/d/ABC123xyz` with any datalist entry passes every check |
| ResumeEditor.SampleSubmitSucceeds | src/components/ResumeEditor.tsx:38-120 | that link with "Optimize for ATS (Applicant Tracking Systems)" runs to success and resets the form to its initial state |
| ResumeEditor.SampleSubmitsRejected | src/components/ResumeEditor.tsx:39-55 | an empty link is rejected as missing, and `https://example.com/doc` as invalid |
| ResumeEditor.Editor.constructor | src/components/ResumeEditor.tsx:16-20 | mounting starts with empty text fields, not processing, progress 0, and nothing shown |
| ResumeEditor.Editor.EditLink | src/components/ResumeEditor.tsx:148 | typing in the link input changes only `link` |
| ResumeEditor.Editor.EditImprovementType | src/components/ResumeEditor.tsx:168 | typing in, or picking for, the improvement-type input changes only `improvementType` |
| ResumeEditor.Editor.EditInstructions | src/components/ResumeEditor.tsx:179-191 | the instructions can be edited only while the field is shown, and editing changes only `instructions` |
| ResumeEditor.Editor.Submit | src/components/ResumeEditor.tsx:38-120 | a submit started idle ends idle; its new fields, outcome, toasts appended and frames appended are exactly those of `Submitted` on the old state |
| ResumeEditor.Editor.Process | src/components/ResumeEditor.tsx:66-119 | the `try`/`catch`/`finally` part: new fields, outcome and appended toasts and frames are those of `Processed` on the old state, and it ends idle |
| ResumeEditor.Editor.RunSteps | src/components/ResumeEditor.tsx:78-86 | the step loop runs until the steps end or the fault fires; it leaves `progress` at the last completed step's checkpoint, changes no other field, and appends exactly `StepToasts` and `StepFrames` of the completed steps |

## Left out

- The 1500 ms `setTimeout` before each step (line 79): each step is one atomic transition, and nothing is timed.
- Toast rendering, the toast hook and `console.error` (line 110): a toast is an entry appended to a log, and the error object is not kept.
- The commented-out `fetch` to `/api/edit-resume` (lines 88-97): it is dead code, and it would be a network call.
- Re-entrancy: the inputs and the button are disabled while processing (lines 150, 170, 190 and 214). The model states this as `requires Idle()` on the editing methods and on `Submit`. It does not model a second handler call while one is in flight.
- React rendering and batching: a frame is recorded at each point where the handler sets `isProcessing` or `progress`, not per render. The two rendered progress views (lines 195-232) are not modelled.
- Where a fault can happen: it fires only at a step boundary or just before the success toast. A throw in the middle of a step, or between the three field resets, is not modelled. The current code cannot throw at all.
- JavaScript `trim`: it is modelled over a fixed set of whitespace characters (tab, line feed, vertical tab, form feed, carriage return, space, no-break space, U+1680, U+2000 to U+200A, the line and paragraph separators, U+202F, U+205F, U+3000 and U+FEFF). Strings are sequences of Unicode scalar values rather than UTF-16 code units; nothing in the model depends on lengths that would differ.
- The regular expression's capture group: the source only calls `test`, so the id it captures is never used.
- All JSX markup, icons and styling, `src/components/HeroSection.tsx` and `src/pages/Index.tsx` (visibility flags and scrolling): they are presentation with no logic of this component. HeroSection.tsx and Index.tsx are not part of this model.
