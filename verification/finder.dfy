/**
 * The finder's handoff flow (src/components/FinderModal.jsx): a finder picks
 * a photo, asks for it to be compared with the posting's photo, and on a
 * score of at least 60% may open a contact form whose submission tries to
 * retire the posting.
 *
 * The component's `useState` fields are the fields of class `FinderModal`;
 * `FinderState` is a snapshot of them, and each event handler is a method
 * whose postcondition gives the new snapshot as a pure transition of the old
 * one. `Consistent` is the invariant every transition keeps.
 *
 * The image-embedding model is not modelled: a comparison delivers the raw
 * cosine of the two embeddings, or a failure. Asynchronous handlers are split
 * at their `await`: `HandleCompare` runs up to the first `await`,
 * `CompleteCompare` runs the rest when the comparison settles. Timers are
 * explicit pending events.
 */
module Finder {
  import opened Common
  import opened JsText
  import opened Listing
  import opened FinderContext

  /** The score from which a comparison counts as a match. */
  const MatchThreshold: real := 60.0

  predicate IsMatch(percent: real)
  {
    percent >= MatchThreshold
  }

  /** `Math.max(-1, Math.min(1, c))` in `cosineSimilarity`. */
  function ClampCosine(c: real): (r: real)
    ensures -1.0 <= r <= 1.0
    ensures -1.0 <= c <= 1.0 ==> r == c
    ensures c < -1.0 ==> r == -1.0
    ensures c > 1.0 ==> r == 1.0
  {
    if c < -1.0 then -1.0 else if c > 1.0 then 1.0 else c
  }

  /** `Math.round`: the nearest integer, halves rounded up. */
  function RoundHalfUp(x: real): (n: int)
    ensures n as real <= x + 0.5 < n as real + 1.0
  {
    (x + 0.5).Floor
  }

  /** `Math.round(((cos + 1) / 2) * 10000) / 100`, taken over the reals. */
  function Percent(cosine: real): (p: real)
    ensures 0.0 <= p <= 100.0
  {
    var y := (ClampCosine(cosine) + 1.0) / 2.0 * 10000.0;
    var n := RoundHalfUp(y);
    assert 0.0 <= y <= 10000.0;
    assert 0 <= n <= 10000;
    n as real / 100.0
  }

  /** The remap sends -1, 0 and 1 to 0%, 50% and 100%. */
  lemma PercentAnchors()
    ensures Percent(-1.0) == 0.0
    ensures Percent(0.0) == 50.0
    ensures Percent(1.0) == 100.0
  {
    assert RoundHalfUp(0.0) == 0;
    assert RoundHalfUp(5000.0) == 5000;
    assert RoundHalfUp(10000.0) == 10000;
  }

  /** A larger cosine never gives a smaller score. */
  lemma PercentMonotone(a: real, b: real)
    requires a <= b
    ensures Percent(a) <= Percent(b)
  {
    var ya := (ClampCosine(a) + 1.0) / 2.0 * 10000.0;
    var yb := (ClampCosine(b) + 1.0) / 2.0 * 10000.0;
    assert ya <= yb;
    assert RoundHalfUp(ya) <= RoundHalfUp(yb);
  }

  /** With the rounding, a clamped cosine is a match exactly from 0.1999 upwards. */
  lemma MatchIffCosineAtLeast(c: real)
    requires -1.0 <= c <= 1.0
    ensures IsMatch(Percent(c)) <==> c >= 0.1999
  {
    var y := (c + 1.0) / 2.0 * 10000.0;
    var n := RoundHalfUp(y);
    assert Percent(c) == n as real / 100.0;
    assert IsMatch(Percent(c)) <==> n >= 6000;
    assert n >= 6000 <==> y >= 5999.5;
  }

  /** The notices the modal raises (`setToast`); the first two kinds are success toasts, the rest errors. */
  datatype FinderToast =
    | MatchFound(percent: real)         // "Match {percent}% — proceed"
    | FinderInfoSubmitted               // "Finder info submitted"
    | SelectImageFirst                  // "Select an image and try again"
    | ModelNotReady                     // "Model not ready"
    | ModelLoadFailed                   // "Failed to load model"
    | NotAMatch(percent: real)          // "Not a match ({percent}%)."
    | ComparisonFailed                  // "Comparison failed"
    | FillRequiredFields                // "Fill required fields"

  predicate IsErrorToast(t: FinderToast)
  {
    !(t.MatchFound? || t.FinderInfoSubmitted?)
  }

  /** How a comparison settles: the raw cosine of the two embeddings, or a thrown error. */
  datatype CompareOutcome = Embedded(cosine: real) | CompareFailed

  /** The three inputs of the contact form. */
  datatype ContactField = NameField | MobileField | LocationField

  /** What became of the `removeItem(selectedItem.id)` call of a submission. */
  datatype RemoveAttempt = NotAttempted | RemoveThrew | Removed

  /** A `removeItem` as a context could supply it: the listing updater it applies for an id. */
  type RemoveItemFn = (seq<Item>, int) -> seq<Item>

  /** A snapshot of the component's state fields, plus its pending timers and model-load bookkeeping. */
  datatype FinderState = FinderState(
    file: Option<FileRef>,
    fileName: string,
    similarity: Option<real>,
    loadingModel: bool,
    runningCompare: bool,
    modelLoaded: bool,
    modelLoadLive: bool,         // a model load whose effect run has not been cleaned up is in flight
    staleModelLoads: nat,        // loads in flight whose effect run was cleaned up (`mounted` is false)
    nextEnabled: bool,
    showFinderForm: bool,
    finderName: string,
    finderMobile: string,
    finderLocation: string,
    submitted: bool,
    toast: Option<FinderToast>,
    pendingAutoCloses: nat)      // 900 ms `closeFinder` timers scheduled and not yet run

  /**
   * The invariant of the flow: a shown score lies in [0, 100] and enables
   * "Next step" exactly when it is a match; nothing is shown or enabled while
   * a comparison runs; the contact form is only open while "Next step" is
   * enabled.
   */
  ghost predicate Consistent(s: FinderState)
  {
    && (s.similarity.Some? ==> 0.0 <= s.similarity.value <= 100.0 && (s.nextEnabled <==> IsMatch(s.similarity.value)))
    && (s.runningCompare ==> s.similarity.None? && !s.nextEnabled && !s.showFinderForm)
    && (s.showFinderForm ==> s.nextEnabled)
  }

  /** The state `useState` starts from. */
  function InitialState(): (s: FinderState)
    ensures Consistent(s)
    ensures s.file.None? && s.similarity.None? && !s.nextEnabled && !s.showFinderForm && !s.submitted
  {
    FinderState(None, "", None, false, false, false, false, 0, false, false, "", "", "", false, None, 0)
  }

  /** The file input's `onChange`: a new pick, or a cleared picker, discards any earlier score. */
  function PickedFile(s: FinderState, f: Option<FileRef>): (r: FinderState)
    ensures Consistent(s) ==> Consistent(r)
    ensures r.file == f && r.fileName == FileNameOf(f)
    ensures r.similarity.None? && !r.nextEnabled && !r.showFinderForm
    ensures r.runningCompare == s.runningCompare && r.submitted == s.submitted && r.toast == s.toast
    ensures r.(file := s.file, fileName := s.fileName, similarity := s.similarity, nextEnabled := s.nextEnabled,
               showFinderForm := s.showFinderForm) == s
  {
    s.(file := f, fileName := FileNameOf(f), similarity := None, nextEnabled := false, showFinderForm := false)
  }

  /**
   * `handleCompare` up to its first `await`: the score, "Next step" and the
   * form are cleared first; without a selected posting or a file, or without
   * a loaded model, it stops with an error toast and starts nothing.
   */
  function StartedCompare(s: FinderState, hasSelection: bool): (r: FinderState)
    requires !s.runningCompare
    ensures Consistent(s) ==> Consistent(r)
    ensures r.similarity.None? && !r.nextEnabled && !r.showFinderForm
    ensures r.runningCompare <==> hasSelection && s.file.Some? && s.modelLoaded
    ensures !(hasSelection && s.file.Some?) ==> r.toast == Some(SelectImageFirst)
    ensures hasSelection && s.file.Some? && !s.modelLoaded ==> r.toast == Some(ModelNotReady)
    ensures r.runningCompare ==> r.toast == s.toast
    ensures r.file == s.file && r.submitted == s.submitted && r.pendingAutoCloses == s.pendingAutoCloses
    ensures r.(similarity := s.similarity, nextEnabled := s.nextEnabled, showFinderForm := s.showFinderForm,
               runningCompare := s.runningCompare, toast := s.toast) == s
  {
    var cleared := s.(similarity := None, nextEnabled := false, showFinderForm := false);
    if !hasSelection || s.file.None? then cleared.(toast := Some(SelectImageFirst))
    else if !s.modelLoaded then cleared.(toast := Some(ModelNotReady))
    else cleared.(runningCompare := true)
  }

  /**
   * The rest of `handleCompare`, when the comparison settles: the score is
   * shown, "Next step" is enabled exactly on a match, a miss schedules the
   * auto-close, a failure shows no score; the comparison is over on every path.
   */
  function CompletedCompare(s: FinderState, outcome: CompareOutcome): (r: FinderState)
    requires s.runningCompare
    ensures Consistent(s) ==> Consistent(r)
    ensures !r.runningCompare
    ensures outcome.CompareFailed? ==> r.toast == Some(ComparisonFailed) && r.pendingAutoCloses == s.pendingAutoCloses
    ensures Consistent(s) && outcome.CompareFailed? ==> r.similarity.None? && !r.nextEnabled
    ensures outcome.Embedded? ==> r.similarity == Some(Percent(outcome.cosine))
    ensures Consistent(s) && outcome.Embedded? ==> (r.nextEnabled <==> IsMatch(Percent(outcome.cosine)))
    ensures outcome.Embedded? && IsMatch(Percent(outcome.cosine)) ==>
      r.toast == Some(MatchFound(Percent(outcome.cosine))) && r.pendingAutoCloses == s.pendingAutoCloses
    ensures outcome.Embedded? && !IsMatch(Percent(outcome.cosine)) ==>
      r.toast == Some(NotAMatch(Percent(outcome.cosine))) && r.pendingAutoCloses == s.pendingAutoCloses + 1
    ensures r.file == s.file && r.showFinderForm == s.showFinderForm && r.submitted == s.submitted
    ensures r.(similarity := s.similarity, nextEnabled := s.nextEnabled, toast := s.toast, runningCompare := s.runningCompare,
               pendingAutoCloses := s.pendingAutoCloses) == s
  {
    match outcome
    case CompareFailed => s.(toast := Some(ComparisonFailed), runningCompare := false)
    case Embedded(cosine) =>
      var percent := Percent(cosine);
      if IsMatch(percent) then
        s.(similarity := Some(percent), nextEnabled := true, toast := Some(MatchFound(percent)), runningCompare := false)
      else
        s.(similarity := Some(percent), toast := Some(NotAMatch(percent)),
           pendingAutoCloses := s.pendingAutoCloses + 1, runningCompare := false)
  }

  /** "Validate" is disabled while the model loads, while a comparison runs, and when no file is picked. */
  predicate ValidateDisabled(s: FinderState)
  {
    s.loadingModel || s.runningCompare || s.file.None?
  }

  /** A comparison that starts from an enabled "Validate" had a file and a loaded model. */
  lemma StartedCompareNeedsFileAndModel(s: FinderState, hasSelection: bool)
    requires !ValidateDisabled(s)
    ensures StartedCompare(s, hasSelection).runningCompare <==> hasSelection && s.modelLoaded
    ensures !StartedCompare(s, hasSelection).runningCompare ==> StartedCompare(s, hasSelection).toast.Some? && IsErrorToast(StartedCompare(s, hasSelection).toast.value)
  {
  }

  /** "Next step": a disabled button does nothing; an enabled one opens the contact form. */
  function ClickedNextStep(s: FinderState): (r: FinderState)
    ensures Consistent(s) ==> Consistent(r)
    ensures r.showFinderForm <==> s.showFinderForm || s.nextEnabled
    ensures r.(showFinderForm := s.showFinderForm) == s
  {
    if s.nextEnabled then s.(showFinderForm := true) else s
  }

  /** "Back" inside the form: hides the form. */
  function ClickedBack(s: FinderState): (r: FinderState)
    ensures Consistent(s) ==> Consistent(r)
    ensures !r.showFinderForm && r.(showFinderForm := s.showFinderForm) == s
  {
    s.(showFinderForm := false)
  }

  /** An `onChange` of one of the contact inputs. */
  function EditedContact(s: FinderState, field: ContactField, value: string): (r: FinderState)
    ensures Consistent(s) ==> Consistent(r)
    ensures field.MobileField? ==> r.finderMobile == value
    ensures field.LocationField? ==> r.finderLocation == value
    ensures field.NameField? ==> r.finderName == value
    ensures r.(finderName := s.finderName, finderMobile := s.finderMobile, finderLocation := s.finderLocation) == s
    ensures !field.NameField? ==> r.finderName == s.finderName
    ensures !field.MobileField? ==> r.finderMobile == s.finderMobile
    ensures !field.LocationField? ==> r.finderLocation == s.finderLocation
  {
    match field
    case NameField => s.(finderName := value)
    case MobileField => s.(finderMobile := value)
    case LocationField => s.(finderLocation := value)
  }

  /** The contact form is refused while the mobile or the pickup location is blank after trimming. */
  predicate ContactIncomplete(s: FinderState)
  {
    Trim(s.finderMobile) == "" || Trim(s.finderLocation) == ""
  }

  /**
   * The browser's constraint validation of the contact form: the mobile and
   * location inputs are `required`, so a submission with either one empty
   * never reaches `handleSubmitFinder`.
   */
  predicate SubmitBlocked(s: FinderState)
  {
    s.finderMobile == "" || s.finderLocation == ""
  }

  /**
   * A submission that passes the browser's check is refused by the handler
   * only for a mobile or location made of whitespace alone, and a blocked one
   * is exactly one with an empty field.
   */
  lemma FillRequiredOnlyForWhitespace(s: FinderState)
    ensures !SubmitBlocked(s) && ContactIncomplete(s) ==>
      (s.finderMobile != "" && AllWhitespace(s.finderMobile)) || (s.finderLocation != "" && AllWhitespace(s.finderLocation))
    ensures SubmitBlocked(s) ==> ContactIncomplete(s)
  {
    if SubmitBlocked(s) {
      assert AllWhitespace(s.finderMobile) || AllWhitespace(s.finderLocation);
    }
  }

  /** `handleSubmitFinder`'s effect on the component's own state. */
  function SubmittedContact(s: FinderState): (r: FinderState)
    ensures Consistent(s) ==> Consistent(r)
    ensures AllWhitespace(s.finderMobile) || AllWhitespace(s.finderLocation) ==>
      r == s.(toast := Some(FillRequiredFields))
    ensures !AllWhitespace(s.finderMobile) && !AllWhitespace(s.finderLocation) ==>
      r == s.(submitted := true, toast := Some(FinderInfoSubmitted))
  {
    if ContactIncomplete(s) then s.(toast := Some(FillRequiredFields))
    else s.(submitted := true, toast := Some(FinderInfoSubmitted))
  }

  /**
   * Whether a submission calls `removeItem(selectedItem.id)`, and how that
   * ends: only an accepted submission about a posting with a truthy id calls
   * it, and a missing `removeItem` throws (the throw is caught).
   */
  function RemovalAttempt(s: FinderState, selected: Option<Item>, removeSupplied: bool): (a: RemoveAttempt)
    ensures a != NotAttempted ==> !ContactIncomplete(s)
    ensures a != NotAttempted ==> selected.Some? && selected.value.id != 0
    ensures a == Removed ==> removeSupplied
    ensures !ContactIncomplete(s) && selected.Some? && selected.value.id != 0 && !removeSupplied ==> a == RemoveThrew
  {
    if ContactIncomplete(s) || selected.None? || selected.value.id == 0 then NotAttempted
    else if removeSupplied then Removed
    else RemoveThrew
  }

  /**
   * The effect cleanup that a close runs on the model-loading effect: when
   * the modal was open, an in-flight load loses its `mounted` flag. None of
   * the flow's own state is touched.
   */
  function ClosedModal(s: FinderState, wasOpen: bool): (r: FinderState)
    ensures Consistent(s) ==> Consistent(r)
    ensures r.(modelLoadLive := s.modelLoadLive, staleModelLoads := s.staleModelLoads) == s
    ensures !r.modelLoadLive <== wasOpen
  {
    if wasOpen && s.modelLoadLive then s.(modelLoadLive := false, staleModelLoads := s.staleModelLoads + 1)
    else s
  }

  /** The 900 ms auto-close after a miss firing: it closes the modal and resets nothing. */
  function FiredAutoClose(s: FinderState, wasOpen: bool): (r: FinderState)
    requires s.pendingAutoCloses > 0
    ensures Consistent(s) ==> Consistent(r)
    ensures r.pendingAutoCloses == s.pendingAutoCloses - 1
    ensures r.file == s.file && r.fileName == s.fileName && r.similarity == s.similarity
    ensures r.nextEnabled == s.nextEnabled && r.showFinderForm == s.showFinderForm && r.submitted == s.submitted
    ensures r.finderName == s.finderName && r.finderMobile == s.finderMobile && r.finderLocation == s.finderLocation
    ensures r.(modelLoadLive := s.modelLoadLive, staleModelLoads := s.staleModelLoads, pendingAutoCloses := s.pendingAutoCloses) == s
  {
    ClosedModal(s, wasOpen).(pendingAutoCloses
 := s.pendingAutoCloses - 1)
  }

  /**
   * "Back to feed": closes the modal and resets `submitted`, `file`,
   * `fileName` and `similarity` only; "Next step", the open form and the
   * contact details stay as they were.
   */
  function WentBackToFeed(s: FinderState, wasOpen: bool): (r: FinderState)
    ensures Consistent(s) ==> Consistent(r)
    ensures !r.submitted && r.file.None? && r.fileName == "" && r.similarity.None?
    ensures r.nextEnabled == s.nextEnabled && r.showFinderForm == s.showFinderForm
    ensures r.finderName == s.finderName && r.finderMobile == s.finderMobile && r.finderLocation == s.finderLocation
    ensures r.toast == s.toast && r.runningCompare == s.runningCompare
    ensures r.(submitted := s.submitted, file := s.file, fileName := s.fileName, similarity := s.similarity,
               modelLoadLive := s.modelLoadLive, staleModelLoads := s.staleModelLoads) == s
  {
    ClosedModal(s, wasOpen).(submitted := false, file := None, fileName := "", similarity := None)
  }

  /** The model-loading effect starting a load (the modal is shown and no model is loaded). */
  function BeganModelLoad(s: FinderState): (r: FinderState)
    ensures Consistent(s) ==> Consistent(r)
    ensures r.loadingModel && r.modelLoadLive
    ensures r.(loadingModel := s.loadingModel, modelLoadLive := s.modelLoadLive) == s
  {
    s.(loadingModel := true, modelLoadLive := true)
  }

  /** A live load settling: the model is kept on success, a toast reports a failure; loading is over either way. */
  function FinishedModelLoad(s: FinderState, ok: bool): (r: FinderState)
    requires s.modelLoadLive
    ensures Consistent(s) ==> Consistent(r)
    ensures !r.loadingModel && !r.modelLoadLive
    ensures r.modelLoaded <==> ok || s.modelLoaded
    ensures !ok ==> r.toast == Some(ModelLoadFailed)
    ensures ok ==> r.toast == s.toast
    ensures r.(modelLoaded := s.modelLoaded, loadingModel := s.loadingModel, modelLoadLive := s.modelLoadLive, toast := s.toast) == s
  {
    if ok then s.(modelLoaded := true, loadingModel := false, modelLoadLive := false)
    else s.(toast := Some(ModelLoadFailed), loadingModel := false, modelLoadLive := false)
  }

  /**
   * A load whose effect run was cleaned up settling: a loaded model is
   * dropped and `loadingModel` is left as it is; a failure still raises its toast.
   */
  function FinishedStaleModelLoad(s: FinderState, ok: bool): (r: FinderState)
    requires s.staleModelLoads > 0
    ensures Consistent(s) ==> Consistent(r)
    ensures r.staleModelLoads == s.staleModelLoads - 1
    ensures r.modelLoaded == s.modelLoaded && r.loadingModel == s.loadingModel
    ensures r.toast == if ok then s.toast else Some(ModelLoadFailed)
    ensures r.(staleModelLoads := s.staleModelLoads, toast := s.toast) == s
  {
    var t := if ok then s.toast else Some(ModelLoadFailed);
    s.(staleModelLoads := s.staleModelLoads - 1, toast := t)
  }

  /** The 3500 ms toast timer firing. */
  function ToastExpired(s: FinderState): (r: FinderState)
    ensures Consistent(s) ==> Consistent(r)
    ensures r.toast.None? && r.(toast := s.toast) == s
  {
    s.(toast := None)
  }

  /** The finder modal component, mounted once for the feed and shown through its context. */
  class FinderModal {
    const ctx: FinderModalContext
    const store: ListingStore
    /** The `removeItem` taken from the listing context, absent when the context does not supply one. */
    const removeItem: Option<RemoveItemFn>

    var file: Option<FileRef>
    var fileName: string
    var similarity: Option<real>
    var loadingModel: bool
    var runningCompare: bool
    var modelLoaded: bool
    var modelLoadLive: bool
    var staleModelLoads: nat
    var nextEnabled: bool
    var showFinderForm: bool
    var finderName: string
    var finderMobile: string
    var finderLocation: string
    var submitted: bool
    var toast: Option<FinderToast>
    var pendingAutoCloses: nat

    function State(): FinderState
      reads this
    {
      FinderState(file, fileName, similarity, loadingModel, runningCompare, modelLoaded, modelLoadLive,
                  staleModelLoads, nextEnabled, showFinderForm, finderName, finderMobile, finderLocation,
                  submitted, toast, pendingAutoCloses)
    }

    ghost predicate Valid()
      reads this
    {
      Consistent(State())
    }

    /** The component renders nothing unless the modal is shown and a posting is selected. */
    predicate Renders()
      reads this, ctx
    {
      ctx.showFinderModal && ctx.selectedItem.Some?
    }

    constructor (ctx: FinderModalContext, store: ListingStore, removeItem: Option<RemoveItemFn>)
      ensures Valid() && State() == InitialState()
      ensures this.ctx == ctx && this.store == store && this.removeItem == removeItem
    {
      this.ctx := ctx;
      this.store := store;
      this.removeItem := removeItem;
      file, fileName, similarity := None, "", None;
      loadingModel, runningCompare, modelLoaded := false, false, false;
      modelLoadLive, staleModelLoads := false, 0;
      nextEnabled, showFinderForm := false, false;
      finderName, finderMobile, finderLocation := "", "", "";
      submitted, toast, pendingAutoCloses := false, None, 0;
    }

    /** The file input's `onChange`. */
    method PickFile(f: Option<FileRef>)
      requires Valid() && Renders()
      modifies this
      ensures Valid() && State() == PickedFile(old(State()), f)
    {
      file := f;
      fileName := FileNameOf(f);
      similarity := None;
      nextEnabled := false;
      showFinderForm := false;
    }

    /** `handleCompare` up to its first `await`; `started` says whether a comparison is now in flight. */
    method HandleCompare() returns (started: bool)
      requires Valid() && !runningCompare
      modifies this
      ensures Valid() && State() == StartedCompare(old(State()), ctx.selectedItem.Some?)
      ensures started == runningCompare
    {
      similarity := None;
      nextEnabled := false;
      showFinderForm := false;
      if ctx.selectedItem.None? || file.None? {
        toast := Some(SelectImageFirst);
        return false;
      }
      if !modelLoaded {
        toast := Some(ModelNotReady);
        return false;
      }
      runningCompare := true;
      started := true;
    }

    /** A click on "Validate": nothing happens while the button is disabled. */
    method ClickValidate() returns (started: bool)
      requires Valid() && Renders()
      modifies this
      ensures Valid()
      ensures ValidateDisabled(old(State())) ==> State() == old(State()) && !started
      ensures !ValidateDisabled(old(State())) ==> State() == StartedCompare(old(State()), ctx.selectedItem.Some?)
      ensures started == (runningCompare && !old(runningCompare))
    {
      if loadingModel || runningCompare || file.None? {
        return false;
      }
      started := HandleCompare();
    }

    /** The rest of `handleCompare`, once the comparison has settled. */
    method CompleteCompare(outcome: CompareOutcome)
      requires Valid() && runningCompare
      modifies this
      ensures Valid() && State() == CompletedCompare(old(State()), outcome)
    {
      match outcome {
        case CompareFailed =>
          toast := Some(ComparisonFailed);
        case Embedded(cosine) =>
          var percent := Percent(ClampCosine(cosine));
          assert percent == Percent(cosine);
          similarity := Some(percent);
          if IsMatch(percent) {
            nextEnabled := true;
            toast := Some(MatchFound(percent));
          } else {
            toast := Some(NotAMatch(percent));
            pendingAutoCloses := pendingAutoCloses + 1;
          }
      }
      runningCompare := false;
    }

    /** `closeFinder()` as the component sees it: the context closes, and the model-loading effect is cleaned up. */
    method CloseFinder()
      requires Valid()
      modifies this, ctx
      ensures Valid() && State() == ClosedModal(old(State()), old(ctx.showFinderModal))
      ensures !ctx.showFinderModal && ctx.selectedItem == old(ctx.selectedItem)
      ensures ctx.pendingClears == old(ctx.pendingClears) + 1
    {
      if ctx.showFinderModal && modelLoadLive {
        modelLoadLive := false;
        staleModelLoads := staleModelLoads + 1;
      }
      ctx.CloseFinder();
    }

    /** `handleOverlayClick` on the backdrop: closes the modal and resets nothing. */
    method ClickOverlay()
      requires Valid() && Renders()
      modifies this, ctx
      ensures Valid() && State() == ClosedModal(old(State()), old(ctx.showFinderModal))
      ensures !ctx.showFinderModal && ctx.selectedItem == old(ctx.selectedItem)
      ensures ctx.pendingClears == old(ctx.pendingClears) + 1
    {
      CloseFinder();
    }

    /** The 900 ms timer scheduled after a miss firing `closeFinder()`. */
    method FireAutoClose()
      requires Valid() && pendingAutoCloses > 0
      modifies this, ctx
      ensures Valid() && State() == FiredAutoClose(old(State()), old(ctx.showFinderModal))
      ensures !ctx.showFinderModal && ctx.selectedItem == old(ctx.selectedItem)
      ensures ctx.pendingClears == old(ctx.pendingClears) + 1
    {
      pendingAutoCloses := pendingAutoCloses - 1;
      CloseFinder();
    }

    /** "Next step", disabled unless `nextEnabled`. */
    method ClickNextStep()
      requires Valid() && Renders()
      modifies this
      ensures Valid() && State() == ClickedNextStep(old(State()))
    {
      if nextEnabled {
        showFinderForm := true;
      }
    }

    /** "Back" inside the contact form. */
    method ClickBack()
      requires Valid() && Renders() && showFinderForm && !submitted
      modifies this
      ensures Valid() && State() == ClickedBack(old(State()))
    {
      showFinderForm := false;
    }

    /** The `onChange` of a contact input. */
    method EditContact(field: ContactField, value: string)
      requires Valid() && Renders() && showFinderForm
      modifies this
      ensures Valid() && State() == EditedContact(old(State()), field, value)
    {
      match field {
        case NameField => finderName := value;
        case MobileField => finderMobile := value;
        case LocationField => finderLocation := value;
      }
    }

    /**
     * `handleSubmitFinder`: an incomplete form only raises a toast; a complete
     * one marks the flow submitted and calls `removeItem`, whose throw (when
     * the context supplies none) is swallowed and leaves the listing as it was.
     */
    method HandleSubmitFinder() returns (attempt: RemoveAttempt)
      requires Valid() && Renders() && showFinderForm
      modifies this, store
      ensures Valid() && State() == SubmittedContact(old(State()))
      ensures attempt == RemovalAttempt(old(State()), ctx.selectedItem, removeItem.Some?)
      ensures attempt == Removed ==> store.items == removeItem.value(old(store.items), ctx.selectedItem.value.id)
      ensures attempt != Removed ==> store.items == old(store.items)
      ensures store.showAddItemModal == old(store.showAddItemModal)
    {
      var accepted := SubmitContact();
      attempt := NotAttempted;
      if accepted {
        attempt := RemoveSelected();
      }
    }

    /**
     * Submitting the contact form in the page: with the mobile or the
     * location empty the browser blocks the submission and nothing happens;
     * otherwise `handleSubmitFinder` runs.
     */
    method SubmitFinderForm() returns (attempt: RemoveAttempt)
      requires Valid() && Renders() && showFinderForm
      modifies this, store
      ensures Valid()
      ensures SubmitBlocked(old(State())) ==> State() == old(State()) && attempt == NotAttempted
      ensures !SubmitBlocked(old(State())) ==> State() == SubmittedContact(old(State()))
      ensures !SubmitBlocked(old(State())) ==> attempt == RemovalAttempt(old(State()), ctx.selectedItem, removeItem.Some?)
      ensures attempt == Removed ==> store.items == removeItem.value(old(store.items), ctx.selectedItem.value.id)
      ensures attempt != Removed ==> store.items == old(store.items)
      ensures store.showAddItemModal == old(store.showAddItemModal)
    {
      if SubmitBlocked(State()) {
        return NotAttempted;
      }
      attempt := HandleSubmitFinder();
    }

    /** The validation and confirmation part of `handleSubmitFinder`; `accepted` says whether the form passed. */
    method SubmitContact() returns (accepted: bool)
      requires Valid()
      modifies this
      ensures Valid() && State() == SubmittedContact(old(State()))
      ensures accepted <==> !ContactIncomplete(old(State()))
    {
      if ContactIncomplete(State()) {
        toast := Some(FillRequiredFields);
        return false;
      }
      submitted := true;
      toast := Some(FinderInfoSubmitted);
      accepted := true;
    }

    /**
     * The `try` block of `handleSubmitFinder`: `removeItem(selectedItem.id)`
     * for a posting with a truthy id; a missing `removeItem` throws, which is
     * caught, and the listing stays as it was.
     */
    method RemoveSelected() returns (attempt: RemoveAttempt)
      modifies store
      ensures ctx.selectedItem.Some? && ctx.selectedItem.value.id != 0 && removeItem.Some? ==>
        attempt == Removed && store.items == removeItem.value(old(store.items), ctx.selectedItem.value.id)
      ensures ctx.selectedItem.Some? && ctx.selectedItem.value.id != 0 && removeItem.None? ==>
        attempt == RemoveThrew && store.items == old(store.items)
      ensures ctx.selectedItem.None? || ctx.selectedItem.value.id == 0 ==>
        attempt == NotAttempted && store.items == old(store.items)
      ensures store.showAddItemModal == old(store.showAddItemModal)
    {
      attempt := NotAttempted;
      if ctx.selectedItem.Some? && ctx.selectedItem.value.id != 0 {
        match removeItem {
          case None =>
            attempt := RemoveThrew;
          case Some(remove) =>
            store.items := remove(store.items, ctx.selectedItem.value.id);
            attempt := Removed;
        }
      }
    }

    /** "Back to feed" on the confirmation. */
    method ClickBackToFeed()
      requires Valid() && Renders() && showFinderForm && submitted
      modifies this, ctx
      ensures Valid() && State() == WentBackToFeed(old(State()), old(ctx.showFinderModal))
      ensures !ctx.showFinderModal && ctx.selectedItem == old(ctx.selectedItem)
      ensures ctx.pendingClears == old(ctx.pendingClears) + 1
    {
      CloseFinder();
      submitted := false;
      file := None;
      fileName := "";
      similarity := None;
    }

    /** The model-loading effect starting a load: it runs while the modal is shown and no model is loaded. */
    method BeginModelLoad()
      requires Valid() && ctx.showFinderModal && !modelLoaded && !modelLoadLive
      modifies this
      ensures Valid() && State() == BeganModelLoad(old(State()))
    {
      loadingModel := true;
      modelLoadLive := true;
    }

    /** The live model load settling. */
    method FinishModelLoad(ok: bool)
      requires Valid() && modelLoadLive
      modifies this
      ensures Valid() && State() == FinishedModelLoad(old(State()), ok)
    {
      if ok {
        modelLoaded := true;
      } else {
        toast := Some(ModelLoadFailed);
      }
      loadingModel := false;
      modelLoadLive := false;
    }

    /** A model load from a cleaned-up effect run settling. */
    method FinishStaleModelLoad(ok: bool)
      requires Valid() && staleModelLoads > 0
      modifies this
      ensures Valid() && State() == FinishedStaleModelLoad(old(State()), ok)
    {
      if !ok {
        toast := Some(ModelLoadFailed);
      }
      staleModelLoads := staleModelLoads - 1;
    }

    /** The toast timer firing. */
    method ExpireToast()
      requires Valid() && toast.Some?
      modifies this
      ensures Valid() && State() == ToastExpired(old(State()))
    {
      toast := None;
    }
  }
}
