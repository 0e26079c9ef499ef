/**
 * Whole interactions, from a fresh feed to an outcome, built from the
 * handlers of the other modules. Each method creates the objects it needs
 * and states what a user ends up seeing.
 */
module Scenarios {
  import opened Common
  import opened JsText
  import opened Listing
  import opened FinderContext
  import opened Finder
  import opened AddItem
  import opened Auth

  /**
   * A finder matches a posting and submits the contact form. The submission
   * is confirmed, but the listing provider supplies no `removeItem`, so the
   * call throws, the throw is swallowed and the posting stays listed.
   */
  method MatchThenSubmit(item: Item, photo: FileRef, cosine: real)
    returns (submitted: bool, attempt: RemoveAttempt, listing: seq<Item>, toast: Option<FinderToast>)
    requires item.id != 0 && 0.1999 <= cosine <= 1.0
    ensures submitted && attempt == RemoveThrew
    ensures listing == [item]
    ensures toast == Some(FinderInfoSubmitted)
  {
    assert "08012345678"[0] == '0' && !IsWhitespace('0');
    assert "Ikeja Mall car park"[0] == 'I' && !IsWhitespace('I');
    var store, ctx, modal;
    store, ctx, modal, attempt := SubmitMatchedForm(item, photo, cosine, "08012345678", "Ikeja Mall car park");
    submitted, listing, toast := modal.submitted, store.items, modal.toast;
  }

  /**
   * A matched form filled in with a mobile number and a pickup location that
   * are not blank, then submitted: the submission is confirmed and the
   * `removeItem` the provider does not supply throws.
   */
  method SubmitMatchedForm(item: Item, photo: FileRef, cosine: real, mobile: string, location: string)
    returns (store: ListingStore, ctx: FinderModalContext, modal: FinderModal, attempt: RemoveAttempt)
    requires item.id != 0 && 0.1999 <= cosine <= 1.0 && !AllWhitespace(mobile) && !AllWhitespace(location)
    ensures fresh(store) && fresh(ctx) && fresh(modal)
    ensures modal.ctx == ctx && modal.store == store
    ensures store.items == [item] && ctx.selectedItem == Some(item) && ctx.showFinderModal
    ensures modal.Valid() && modal.Renders()
    ensures modal.showFinderForm && modal.nextEnabled && modal.submitted && modal.finderMobile == mobile
    ensures attempt == RemoveThrew && modal.toast == Some(FinderInfoSubmitted)
  {
    store, ctx, modal := OpenMatchedForm(item, photo, cosine);
    modal.EditContact(MobileField, mobile);
    modal.EditContact(LocationField, location);
    attempt := modal.SubmitFinderForm();
  }

  /**
   * The common start of the matching scenarios: a feed holding one posting,
   * the finder opened on it, the model loaded, a photo compared with a
   * score of at least 60%, and "Next step" clicked.
   */
  method OpenMatchedForm(item: Item, photo: FileRef, cosine: real)
    returns (store: ListingStore, ctx: FinderModalContext, modal: FinderModal)
    requires 0.1999 <= cosine <= 1.0
    ensures fresh(store) && fresh(ctx) && fresh(modal)
    ensures modal.ctx == ctx && modal.store == store && modal.removeItem.None?
    ensures store.items == [item] && ctx.selectedItem == Some(item) && ctx.showFinderModal && ctx.pendingClears == 0
    ensures modal.Valid() && modal.Renders()
    ensures modal.showFinderForm && modal.nextEnabled && !modal.submitted && !modal.runningCompare
    ensures modal.file == Some(photo) && modal.similarity == Some(Percent(cosine))
  {
    store := new ListingStore();
    store.AddItem(item);
    ctx := new FinderModalContext();
    ctx.OpenFinder(item);
    modal := new FinderModal(ctx, store, None);
    modal.BeginModelLoad();
    modal.FinishModelLoad(true);
    modal.PickFile(Some(photo));
    var started := modal.ClickValidate();
    MatchIffCosineAtLeast(cosine);
    modal.CompleteCompare(Embedded(cosine));
    modal.ClickNextStep();
  }

  /**
   * A score below the threshold: "Not a match" is shown and the auto-close
   * fires, then the deferred clear. The modal is gone, but the file and the
   * score stay in the component, ready to show on the next opening.
   */
  method MissThenAutoClose(item: Item, photo: FileRef, cosine: real)
    returns (rendered: bool, keptFile: Option<FileRef>, keptScore: Option<real>, nextEnabled: bool)
    requires -1.0 <= cosine < 0.1999
    ensures !rendered
    ensures keptFile == Some(photo) && keptScore == Some(Percent(cosine)) && keptScore.value < MatchThreshold
    ensures !nextEnabled
  {
    var store := new ListingStore();
    var ctx := new FinderModalContext();
    ctx.OpenFinder(item);
    var modal := new FinderModal(ctx, store, None);
    modal.BeginModelLoad();
    modal.FinishModelLoad(true);
    modal.PickFile(Some(photo));
    var started := modal.ClickValidate();
    MatchIffCosineAtLeast(cosine);
    modal.CompleteCompare(Embedded(cosine));
    modal.FireAutoClose();
    ctx.FireDeferredClear();
    rendered, keptFile, keptScore, nextEnabled := modal.Renders(), modal.file, modal.similarity, modal.nextEnabled;
  }

  /**
   * Reopening the finder on another posting before the 200 ms clear of an
   * earlier close has fired: the clear still runs, and the shown modal
   * renders nothing.
   */
  method ReopenBeforeDeferredClear(first: Item, second: Item)
    returns (shown: bool, selected: Option<Item>, rendered: bool)
    ensures shown && selected.None? && !rendered
  {
    var store := new ListingStore();
    var ctx := new FinderModalContext();
    var modal := new FinderModal(ctx, store, None);
    ctx.OpenFinder(first);
    ctx.CloseFinder();
    ctx.OpenFinder(second);
    ctx.FireDeferredClear();
    shown, selected, rendered := ctx.showFinderModal, ctx.selectedItem, modal.Renders();
  }

  /** A comparison that throws shows no score, keeps "Next step" disabled and reports the failure. */
  method CompareFailureShowsNoScore(item: Item, photo: FileRef)
    returns (score: Option<real>, nextEnabled: bool, running: bool, toast: Option<FinderToast>)
    ensures score.None? && !nextEnabled && !running
    ensures toast == Some(ComparisonFailed)
  {
    var store := new ListingStore();
    var ctx := new FinderModalContext();
    ctx.OpenFinder(item);
    var modal := new FinderModal(ctx, store, None);
    modal.BeginModelLoad();
    modal.FinishModelLoad(true);
    modal.PickFile(Some(photo));
    var started := modal.ClickValidate();
    modal.CompleteCompare(CompareFailed);
    score, nextEnabled, running, toast := modal.similarity, modal.nextEnabled, modal.runningCompare, modal.toast;
  }

  /**
   * Opening the finder starts loading the model; when that load fails,
   * "Validate" is enabled again but is refused with "Model not ready", and
   * nothing starts.
   */
  method ValidateBeforeModelLoads(item: Item, photo: FileRef)
    returns (started: bool, toast: Option<FinderToast>)
    ensures !started && toast == Some(ModelNotReady)
  {
    var store := new ListingStore();
    var ctx := new FinderModalContext();
    ctx.OpenFinder(item);
    var modal := new FinderModal(ctx, store, None);
    modal.BeginModelLoad();
    modal.FinishModelLoad(false);
    modal.PickFile(Some(photo));
    started := modal.ClickValidate();
    toast := modal.toast;
  }

  /**
   * "Back to feed" after a confirmed submission, then reopening the finder on
   * the same posting: no file and no score, but the contact form is still
   * open, with "Next step" enabled and the earlier mobile number filled in.
   */
  method BackToFeedThenReopen(item: Item, photo: FileRef, cosine: real, mobile: string)
    returns (file: Option<FileRef>, score: Option<real>, formOpen: bool, nextEnabled: bool,
             submitted: bool, keptMobile: string)
    requires item.id != 0 && 0.1999 <= cosine <= 1.0 && !AllWhitespace(mobile)
    ensures file.None? && score.None? && !submitted
    ensures formOpen && nextEnabled && keptMobile == mobile
  {
    assert "Gate B"[0] == 'G' && !IsWhitespace('G');
    var store, ctx, modal, attempt := SubmitMatchedForm(item, photo, cosine, mobile, "Gate B");
    modal.ClickBackToFeed();
    ctx.FireDeferredClear();
    ctx.OpenFinder(item);
    file, score, formOpen, nextEnabled := modal.file, modal.similarity, modal.showFinderForm, modal.nextEnabled;
    submitted, keptMobile := modal.submitted, modal.finderMobile;
  }

  /**
   * Adding a lost item: the form is opened, filled in and submitted, and the
   * upload succeeds. The posting is listed first, built from the trimmed
   * inputs with "anonymous" for a signed-out user, and the form is closed.
   */
  method AddLostItem(earlier: Item, photo: FileRef, location: string, description: string,
                     imgUrl: string, id: int, today: CalendarDate)
    returns (listing: seq<Item>, formShown: bool)
    requires !AllWhitespace(location) && !AllWhitespace(description)
    ensures |listing| == 2 && listing[1] == earlier && !formShown
    ensures listing[0].id == id && listing[0].imgUrl == imgUrl && listing[0].username == "anonymous"
    ensures listing[0].location == Trim(location) && listing[0].description == Trim(description)
    ensures listing[0].date == Text(FormattedDate(today))
  {
    var store, form := OpenFilledForm(Some(earlier), photo, location, description);
    var started := form.HandleSubmit(None, today);
    form.FinishUpload(Response(true, 200, "", Some(imgUrl)), id);
    listing, formShown := store.items, store.showAddItemModal;
  }

  /** The add-item form opened over a listing of at most one posting and filled in with a photo, a location and a description. */
  method OpenFilledForm(earlier: Option<Item>, photo: FileRef, location: string, description: string)
    returns (store: ListingStore, form: AddItemForm)
    ensures fresh(store) && fresh(form) && form.store == store
    ensures store.items == (if earlier.Some? then [earlier.value] else []) && store.showAddItemModal
    ensures form.Valid() && !form.uploading
    ensures form.file == Some(photo) && form.location == location && form.description == description
  {
    store := new ListingStore();
    if earlier.Some? {
      store.AddItem(earlier.value);
    }
    store.HandleAddItem();
    form := new AddItemForm(store);
    form.PickFile(Some(photo));
    form.EditLocation(location);
    form.EditDescription(description);
  }

  /** A failed upload shows "Upload failed. Try again.", lists nothing and leaves the form open. */
  method UploadFailureKeepsForm(photo: FileRef, location: string, description: string, status: int, today: CalendarDate)
    returns (listing: seq<Item>, formShown: bool, error: string, uploading: bool)
    requires !AllWhitespace(location) && !AllWhitespace(description)
    ensures listing == [] && formShown && !uploading
    ensures error == "Upload failed. Try again."
  {
    var store, form := OpenFilledForm(None, photo, location, description);
    var started := form.HandleSubmit(Some("ada"), today);
    form.FinishUpload(Response(false, status, "bad request", None), 1);
    listing, formShown, error, uploading := store.items, store.showAddItemModal, form.error, form.uploading;
  }

  /**
   * Cancelling while the upload runs, then the upload succeeding: the posting
   * is still added, and because closing flips the add-item flag, the form
   * opens again.
   */
  method CancelDuringUpload(photo: FileRef, location: string, description: string, imgUrl: string, today: CalendarDate)
    returns (listed: nat, formShown: bool)
    requires !AllWhitespace(location) && !AllWhitespace(description)
    ensures listed == 1 && formShown
  {
    var store, form := OpenFilledForm(None, photo, location, description);
    var started := form.HandleSubmit(None, today);
    form.Cancel();
    form.FinishUpload(Response(true, 200, "", Some(imgUrl)), 7);
    listed, formShown := |store.items|, store.showAddItemModal;
  }

  /** A fixture fetch that fails leaves the feed empty. */
  method SeedFailureLeavesFeedEmpty() returns (listing: seq<Item>)
    ensures listing == []
  {
    var store := new ListingStore();
    store.ReceiveSeed(None);
    listing := store.items;
  }

  /** Two calls of `handleAddItem` give back the flag they started from. */
  method ToggleTwiceRestores() returns (before: bool, between: bool, after: bool)
    ensures !before && between && !after
  {
    var store := new ListingStore();
    before := store.showAddItemModal;
    store.HandleAddItem();
    between := store.showAddItemModal;
    store.HandleAddItem();
    after := store.showAddItemModal;
  }

  /** A blank username on the log-in page only raises the alert: no user is stored and there is no navigation. */
  method BlankLogin(blank: string) returns (accepted: bool, user: Option<string>, effects: seq<Effect>)
    requires AllWhitespace(blank)
    ensures !accepted && user.None? && effects == [Alert("Enter your username")]
  {
    var session := new Session(None);
    var page := new LoginPage(session);
    page.EditUsername(blank);
    accepted := page.HandleSignIn();
    user, effects := session.currentUser, session.effects;
  }

  /** Signing up as "  ada " stores "ada" and then navigates to the feed. */
  method PaddedSignup() returns (user: Option<string>, effects: seq<Effect>)
    ensures user == Some("ada")
    ensures effects == [SetCurrentUser("ada"), Navigate("/")]
  {
    var session := new Session(None);
    var page := new SignupPage(session);
    page.EditUsername("  ada ");
    TrimOfPadded();
    var accepted := page.HandleCreate();
    user, effects := session.currentUser, session.effects;
  }

  lemma TrimOfPadded()
    ensures Trim("  ada ") == "ada"
  {
    LeadingSpacesCounted();
    TrailingSpaceCounted();
    assert "  ada "[2..] == "ada ";
  }

  lemma LeadingSpacesCounted()
    ensures LeadingWhitespace("  ada ") == 2
  {
    assert IsWhitespace(' ') && !IsWhitespace('a');
    assert "  ada "[1..] == " ada " && " ada "[1..] == "ada ";
  }

  lemma TrailingSpaceCounted()
    ensures TrailingWhitespace("ada ") == 1
  {
    assert IsWhitespace(' ') && !IsWhitespace('a');
    assert "ada "[..3] == "ada";
  }
}
