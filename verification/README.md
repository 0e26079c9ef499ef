# ai-lost-and-found, modelled in Dafny

This project models the client core of a small lost-and-found web app.
Owners post lost items to a feed with a photo, a location and a description.
Finders open a posting, pick a photo of what they found, and have the two
images compared. On a match of at least 60% they leave a mobile number and a
public pickup location.

The model covers:

- the feed's listing store: seed normalisation of fixture dates, newest-first
  additions and the add-item flag (`listing.dfy`);
- the finder modal's open/close context, including the clear of the selected
  posting deferred by 200 ms (`finder_context.dfy`);
- the finder modal itself (`finder.dfy`). It covers the file pick, the
  comparison with its cosine-to-percent scoring and 60% threshold, the
  "Next step" gate, the contact form and its submission, "Back to feed", the
  model-loading effect and the toasts. The component is a class whose fields
  are the React state. Every handler is proved to implement a pure
  transition on a `FinderState` snapshot, and every transition is proved to
  preserve the flow invariant `Consistent`;
- the add-item form (`add_item.dfy`): its completeness check shared by the
  handler and the submit button, the posting built from an upload, the upload
  outcome and the form's error/uploading flags;
- the image-comparison API client (`gemini.dfy`): cache-busted image URLs,
  data-URL payload extraction, the request sent to the model service and the
  parsing of its reply;
- the sign-up and log-in pages (`auth.dfy`);
- JavaScript string behaviour the code relies on (`js_text.dfy`): `trim`
  with the ECMAScript whitespace set, `split`, `padStart(2, "0")` and
  `String(n)`.

`scenarios.dfy` holds end-to-end runs. Each builds fresh objects, drives them
through a user flow and states the outcome.

Asynchronous handlers are split at their `await`: one method runs up to it
and another runs the continuation. The outcome of the awaited work (an
embedding cosine, an upload response, a model load result) is a parameter.
Timers (the 3.5 s toast timer, the 900 ms auto-close and the 200 ms deferred
clear) are explicit pending events, each delivered by a method of its own.
The auto-close and the deferred clear are counted when scheduled; the toast
timer has no counter and may fire whenever a toast is shown.

## Model

| member | source | states |
|---|---|---|
| JsText.LeadingWhitespace | src/components/FinderModal.jsx:153 | The count of leading whitespace characters: every character before it is ECMAScript whitespace and the next one is not |
| JsText.TrailingWhitespace | src/components/FinderModal.jsx:153 | The count of trailing whitespace characters: every character after the cut is whitespace and the one before it is not |
| JsText.Trim | src/components/FinderModal.jsx:153 | `trim()` is empty exactly when the string is all ECMAScript whitespace, is never longer, and neither starts nor ends with whitespace |
| JsText.TrimDropsOnlyWhitespace | src/components/FinderModal.jsx:153 | The trimmed string is a slice of the input with nothing but whitespace before and after it |
| JsText.TrimKeepsTrimmed | src/components/AddItemModal.jsx:78-80 | Trimming an already trimmed string (a stored location or description) changes nothing |
| JsText.Split | src/contexts/AddItemModalContext.jsx:8 | `split` gives at least one field, no field contains the separator, and there are two or more fields exactly when the separator occurs |
| JsText.JoinSplit | src/contexts/AddItemModalContext.jsx:8 | Joining the fields of a split with the separator gives back the string |
| JsText.SplitJoin | src/contexts/AddItemModalContext.jsx:8 | Splitting a join of separator-free fields gives back the fields |
| JsText.SplitNoSeparator | src/api/gemini.js:24 | A string without the separator splits into itself alone |
| JsText.SplitAtFirstSeparator | src/api/gemini.js:24 | Splitting cuts at the first separator, and the rest is split on its own |
| JsText.Field | src/contexts/AddItemModalContext.jsx:8 | Destructuring an index past the end of an array gives `undefined`; otherwise it gives that field |
| JsText.JsString | src/contexts/AddItemModalContext.jsx:9 | `String(v)` of a string is the string; `String(undefined)` is "undefined" |
| JsText.PadStart2 | src/contexts/AddItemModalContext.jsx:9 | `padStart(2, "0")` has length max(2, n), keeps the string as its suffix (never truncates) and adds only '0' |
| JsText.PadStart2Chars | src/contexts/AddItemModalContext.jsx:9 | Padding adds no character other than '0' |
| JsText.NatToDecimal | src/components/AddItemModal.jsx:21-23 | `String(n)` of a natural number is a non-empty run of digits, one digit exactly below 10, with no leading zero |
| JsText.DecimalRoundTrip | src/components/AddItemModal.jsx:21-23 | The decimal rendering of a natural number reads back as that number |
| JsText.IntToDecimal | src/components/AddItemModal.jsx:55 | `String(i)` of an integer status contains '-' exactly when it is negative, and is the plain decimal rendering otherwise |
| Listing.DashedFieldsHaveNoDash | src/contexts/AddItemModalContext.jsx:8-9 | The `day/m/y` template over dash-free fields is non-empty and has no '-' |
| Listing.ParseDateToDisplay | src/contexts/AddItemModalContext.jsx:5-17 | A falsy date becomes "", a dash-free non-empty string and any other truthy value are kept, strings always come out dash-free, and `Date` values become text |
| Listing.DisplayText | src/contexts/AddItemModalContext.jsx:7-16 | The string case never leaves a '-' in its result, and returns a dash-free string as it is |
| Listing.NormalisingTextTwice | src/contexts/AddItemModalContext.jsx:5-17 | On strings the date normaliser is idempotent |
| Listing.DashedDateReordered | src/contexts/AddItemModalContext.jsx:7-9 | `y-m-day` becomes `day/m/y` with day and month padded to two characters |
| Listing.SplitTwoFields | src/contexts/AddItemModalContext.jsx:8 | `y-m` splits into exactly the two fields |
| Listing.MissingDayPrintsUndefined | src/contexts/AddItemModalContext.jsx:8-9 | A date with a single '-' prints its day as "undefined" |
| Listing.IsoDateDisplaysLikeCalendar | src/contexts/AddItemModalContext.jsx:7-15 | An ISO `YYYY-MM-DD` fixture date displays exactly like the same date held in a `Date` object |
| Listing.NoDashInDecimal | src/contexts/AddItemModalContext.jsx:12-14 | The decimal rendering of a natural number holds no '-' |
| Listing.PaddedDashedFields | src/contexts/AddItemModalContext.jsx:7-9 | Dash-free fields already padded as in the ISO form are reordered with their padding unchanged |
| Listing.PaddedIsPadded | src/contexts/AddItemModalContext.jsx:9 | Padding an already padded field changes nothing |
| Listing.NormaliseSeed | src/contexts/AddItemModalContext.jsx:29-33 | Seed normalisation keeps every posting, in order, and changes only its date, which is normalised |
| Listing.AddingListsNewestFirst | src/contexts/AddItemModalContext.jsx:47-49 | After N calls to `addItem` the new postings come first, in reverse order of addition, ahead of the earlier ones |
| Listing.ListingStore.constructor | src/contexts/AddItemModalContext.jsx:20-21 | The provider starts with the add-item modal hidden and an empty listing |
| Listing.ListingStore.HandleAddItem | src/contexts/AddItemModalContext.jsx:43-45 | `handleAddItem` flips the add-item flag and leaves the listing alone |
| Listing.ListingStore.SetShowAddItemModal | src/contexts/AddItemModalContext.jsx:20 | The exposed setter sets the flag and leaves the listing alone |
| Listing.ListingStore.AddItem | src/contexts/AddItemModalContext.jsx:47-49 | `addItem` prepends the posting and keeps the rest |
| Listing.ListingStore.ReceiveSeed | src/contexts/AddItemModalContext.jsx:23-41 | A successful fixture fetch replaces the listing with its normalisation; a failed one leaves the listing as it was |
| Listing.UseModalContext | src/contexts/AddItemModalContext.jsx:65-73 | The hook returns the provider value, and throws its message exactly when there is none |
| FinderContext.FinderModalContext.constructor | src/contexts/FinderModalContext.jsx:6-7 | The modal starts hidden with nothing selected |
| FinderContext.FinderModalContext.OpenFinder | src/contexts/FinderModalContext.jsx:9-12 | `openFinder` selects the posting and shows the modal; queued clears stay queued |
| FinderContext.FinderModalContext.CloseFinder | src/contexts/FinderModalContext.jsx:14-17 | `closeFinder` hides the modal at once, keeps the selection and queues one deferred clear |
| FinderContext.FinderModalContext.FireDeferredClear | src/contexts/FinderModalContext.jsx:16 | A deferred clear empties the selection even if the modal was reopened in between |
| FinderContext.UseFinderModal | src/contexts/FinderModalContext.jsx:32-36 | The hook returns the provider value, and throws its message exactly when there is none |
| Finder.ClampCosine | src/components/FinderModal.jsx:84-90 | The cosine is clamped into [-1, 1], and values already inside are kept |
| Finder.RoundHalfUp | src/components/FinderModal.jsx:122 | `Math.round` gives the integer n with n <= x + 1/2 < n + 1 |
| Finder.Percent | src/components/FinderModal.jsx:121-122 | The score always lies in [0, 100] |
| Finder.PercentAnchors | src/components/FinderModal.jsx:122 | Cosines -1, 0 and 1 score 0%, 50% and 100% |
| Finder.PercentMonotone | src/components/FinderModal.jsx:121-122 | A larger cosine never scores lower |
| Finder.MatchIffCosineAtLeast | src/components/FinderModal.jsx:122-128 | After rounding, a cosine in [-1, 1] is a match (score >= 60) exactly when it is at least 0.1999 |
| Finder.InitialState | src/components/FinderModal.jsx:12-27 | The initial state is consistent, with no file, no score, "Next step" disabled, the form closed and nothing submitted |
| Finder.PickedFile | src/components/FinderModal.jsx:211-218 | A file pick stores the file and its name, and discards the score, the "Next step" gate and the open form, and changes no other field; the invariant is kept |
| Finder.StartedCompare | src/components/FinderModal.jsx:93-106 | Starting a comparison clears score, gate and form; it runs exactly with a selection, a file and a loaded model, and otherwise raises the matching error toast; no other field changes |
| Finder.CompletedCompare | src/components/FinderModal.jsx:107-142 | A settled comparison shows the clamped, rounded score and enables "Next step" exactly on a match; a miss schedules one auto-close; a failure shows "Comparison failed" and no score; running ends on every path; only the score, gate, toast, running flag and auto-close count change |
| Finder.StartedCompareNeedsFileAndModel | src/components/FinderModal.jsx:227-236 | A comparison started from an enabled "Validate" runs exactly when a posting is selected and the model is loaded, and otherwise raises an error toast |
| Finder.ClickedNextStep | src/components/FinderModal.jsx:252-258 | "Next step" opens the form only when enabled and changes nothing else |
| Finder.ClickedBack | src/components/FinderModal.jsx:298-302 | "Back" closes the form and changes nothing else |
| Finder.EditedContact | src/components/FinderModal.jsx:265-289 | Each contact input stores its value and leaves the other two inputs and every other field unchanged; the invariant is kept |
| Finder.SubmittedContact | src/components/FinderModal.jsx:151-159 | A blank mobile or location only raises "Fill required fields"; otherwise the flow is marked submitted with "Finder info submitted" |
| Finder.FillRequiredOnlyForWhitespace | src/components/FinderModal.jsx:151-154 | A submission the browser lets through is refused by the handler only for a mobile or location of whitespace alone; the browser blocks exactly the empty ones, which the handler would also refuse |
| Finder.RemovalAttempt | src/components/FinderModal.jsx:160-168 | `removeItem` is attempted only after an accepted submission on a posting with a truthy id; a missing `removeItem` throws, and the throw is caught |
| Finder.ClosedModal | src/components/FinderModal.jsx:54-56 | Closing cleans up the model-loading effect run (an in-flight load goes stale) and touches nothing else |
| Finder.FiredAutoClose | src/components/FinderModal.jsx:133-135 | The 900 ms auto-close consumes its timer, closes (which only makes a live model load stale), and resets none of the file, score, gate, form or contact fields |
| Finder.WentBackToFeed | src/components/FinderModal.jsx:316-323 | "Back to feed" resets submitted, file, file name and score, and otherwise only makes a live model load stale; the gate, the open form, the contact details and the loaded model survive |
| Finder.BeganModelLoad | src/components/FinderModal.jsx:34-38 | The effect starts a live load and sets `loadingModel`, and nothing else changes |
| Finder.FinishedModelLoad | src/components/FinderModal.jsx:39-52 | A live load ends loading; it marks the model loaded and keeps the toast on success, raises "Failed to load model" on failure, and changes no other field |
| Finder.FinishedStaleModelLoad | src/components/FinderModal.jsx:44-51 | A load from a cleaned-up run drops its model and leaves `loadingModel` as it is, but a failure still raises its toast; nothing else changes |
| Finder.ToastExpired | src/components/FinderModal.jsx:28-32 | The toast timer clears the toast and nothing else |
| Finder.FinderModal.constructor | src/components/FinderModal.jsx:6-27 | The component starts in the initial state over the given contexts |
| Finder.FinderModal.PickFile | src/components/FinderModal.jsx:211-218 | The handler implements `PickedFile` and keeps the invariant |
| Finder.FinderModal.HandleCompare | src/components/FinderModal.jsx:93-106 | The handler implements `StartedCompare`; `started` reports whether a comparison is in flight |
| Finder.FinderModal.ClickValidate | src/components/FinderModal.jsx:227-236 | A disabled "Validate" changes nothing; an enabled one implements `StartedCompare` |
| Finder.FinderModal.CompleteCompare | src/components/FinderModal.jsx:107-142 | The continuation implements `CompletedCompare` and keeps the invariant |
| Finder.FinderModal.CloseFinder | src/components/FinderModal.jsx:54-56 | The context closes and queues its clear, and the component applies `ClosedModal` |
| Finder.FinderModal.ClickOverlay | src/components/FinderModal.jsx:145-149 | A backdrop click closes the modal and resets none of the component's state |
| Finder.FinderModal.FireAutoClose | src/components/FinderModal.jsx:133-135 | The auto-close timer implements `FiredAutoClose` and closes the context |
| Finder.FinderModal.ClickNextStep | src/components/FinderModal.jsx:252-258 | The button implements `ClickedNextStep` |
| Finder.FinderModal.ClickBack | src/components/FinderModal.jsx:298-302 | The link implements `ClickedBack` |
| Finder.FinderModal.EditContact | src/components/FinderModal.jsx:265-289 | The inputs implement `EditedContact` |
| Finder.FinderModal.HandleSubmitFinder | src/components/FinderModal.jsx:151-169 | The handler implements `SubmittedContact` and `RemovalAttempt`; the listing changes only when `removeItem` ran, and then by exactly that call |
| Finder.FinderModal.SubmitFinderForm | src/components/FinderModal.jsx:262-289 | Submitting the form with an empty mobile or location is blocked by the `required` inputs and changes nothing; otherwise `handleSubmitFinder` runs as stated for it |
| Finder.FinderModal.SubmitContact | src/components/FinderModal.jsx:152-159 | The submission is accepted exactly when mobile and location are not blank, and the state follows `SubmittedContact` |
| Finder.FinderModal.RemoveSelected | src/components/FinderModal.jsx:161-168 | `removeItem(selectedItem.id)` runs for a posting with a truthy id; a missing `removeItem` or posting leaves the listing as it was |
| Finder.FinderModal.ClickBackToFeed | src/components/FinderModal.jsx:316-323 | The button closes the context and implements `WentBackToFeed` |
| Finder.FinderModal.BeginModelLoad | src/components/FinderModal.jsx:34-38 | The effect run implements `BeganModelLoad` |
| Finder.FinderModal.FinishModelLoad | src/components/FinderModal.jsx:39-52 | The live load's settling implements `FinishedModelLoad` |
| Finder.FinderModal.FinishStaleModelLoad | src/components/FinderModal.jsx:44-51 | A stale load's settling implements `FinishedStaleModelLoad` |
| Finder.FinderModal.ExpireToast | src/components/FinderModal.jsx:28-32 | The toast timer implements `ToastExpired` |
| AddItem.TwoDigitField | src/components/AddItemModal.jsx:21-22 | A number below 100 pads to two digits that read back as itself |
| AddItem.FourDigitYear | src/components/AddItemModal.jsx:23 | A four-digit year prints as four digits that read back as itself |
| AddItem.FormattedDateFields | src/components/AddItemModal.jsx:20-23 | Today's date formats as ten characters `DD/MM/YYYY` whose fields read back as the day, the 1-based month and the year |
| AddItem.FieldsReadBack | src/components/AddItemModal.jsx:21-23 | Padded day and month below 100 and a four-digit year fill `DD/MM/YYYY` and read back as those numbers |
| AddItem.SlashedFields | src/components/AddItemModal.jsx:21-23 | Two two-digit fields and a four-digit one joined with slashes put the slashes at positions 2 and 5 and each field reads back as its value |
| AddItem.FormattedDateIsDisplayForm | src/components/AddItemModal.jsx:81 | A stored date is already in display form: the feed's date normaliser leaves it as it is |
| AddItem.UsernameOrAnonymous | src/components/AddItemModal.jsx:77 | The posting's username is the signed-in user when truthy and "anonymous" otherwise, and is never empty |
| AddItem.MissingFields | src/components/AddItemModal.jsx:66 | The form is incomplete exactly when there is no file or the location or description is all whitespace |
| AddItem.NewItem | src/components/AddItemModal.jsx:75-82 | The new posting carries the id, image URL and date, `currentUser || "anonymous"` as its username, and `location.trim()` and `description.trim()`, which are empty only for blank input |
| AddItem.UploadOutcome | src/components/AddItemModal.jsx:53-60 | The upload gives the `secure_url` exactly for an ok response whose body is JSON; a non-ok one fails with "Cloudinary upload failed {status} {text}" |
| AddItem.AddItemForm.constructor | src/components/AddItemModal.jsx:10-18 | The form starts empty, not uploading, with no error |
| AddItem.AddItemForm.SubmitDisabled | src/components/AddItemModal.jsx:183-185 | The submit button is disabled exactly while uploading or when the handler would refuse the fields |
| AddItem.AddItemForm.PickFile | src/components/AddItemModal.jsx:137-141 | The file input stores the file and its name and nothing else |
| AddItem.AddItemForm.EditLocation | src/components/AddItemModal.jsx:160 | The location input stores its value and nothing else |
| AddItem.AddItemForm.EditDescription | src/components/AddItemModal.jsx:170 | The description input stores its value and nothing else |
| AddItem.AddItemForm.HandleSubmit | src/components/AddItemModal.jsx:63-71 | A complete form clears the error and starts uploading with the captured submission; an incomplete one shows "Please complete all fields" and starts nothing |
| AddItem.AddItemForm.Validate | src/components/AddItemModal.jsx:65-69 | The error is cleared, then set to "Please complete all fields" exactly when a field is missing |
| AddItem.AddItemForm.BeginUpload | src/components/AddItemModal.jsx:71 | Uploading starts with the submission's closure captured |
| AddItem.AddItemForm.FinishUpload | src/components/AddItemModal.jsx:72-92 | A successful upload prepends the new posting and flips the add-item flag; a failed one shows "Upload failed. Try again." and adds nothing; uploading ends either way |
| AddItem.AddItemForm.Publish | src/components/AddItemModal.jsx:84-86 | `addItem` prepends the posting and `handleCloseModal` flips the add-item flag |
| AddItem.AddItemForm.HandleCloseModal | src/components/AddItemModal.jsx:25-27 | Closing calls the `handleAddItem` it was given, which flips the add-item flag |
| AddItem.AddItemForm.Cancel | src/components/AddItemModal.jsx:176-180 | Cancel on the shown form hides it and leaves the listing alone |
| Gemini.CacheBustedSrc | src/api/gemini.js:11 | The image `src` is the URL plus `&t=` or `?t=` and the timestamp, choosing '&' exactly when the URL already has a '?' |
| Gemini.CacheBustAddsOneQuery | src/api/gemini.js:11 | The cache-busted `src` has one more '?' than the URL when the URL had none, and the same number otherwise |
| Gemini.PayloadOf | src/api/gemini.js:24 | `dataURL.split(",")[1]` is `undefined` exactly when there is no comma, and never contains a comma |
| Gemini.PayloadOfDataUrl | src/api/gemini.js:21-24 | The payload of a `header,payload` data URL is the payload |
| Gemini.PayloadStopsAtSecondComma | src/api/gemini.js:24 | A payload holding a comma is cut at that comma |
| Gemini.UrlToImagePart | src/api/gemini.js:7-35 | The URL image yields a JPEG part exactly when it loads and exports; a load error and a blocked export reject with their messages |
| Gemini.FileToImagePart | src/api/gemini.js:37-52 | The file yields a part with its data-URL payload and its own MIME type exactly when the read succeeds |
| Gemini.CompareRequest | src/api/gemini.js:76-88 | The request goes to "gemini-2.5-flash" as one user turn (prompt, lost image, found image) asking for JSON |
| Gemini.ParseReply | src/api/gemini.js:90-92 | The reply succeeds exactly when the first part of the first candidate has text that parses, and is that parse; a missing candidate or part fails |
| Gemini.CompareItems | src/api/gemini.js:62-93 | The first rejecting step decides the error: the URL image, the file read, the model call (`RequestFailed`), then the reply parsing; it succeeds exactly when every step does, with the parsed reply to the request built from both parts |
| Gemini.CompareItemsReturnsParsedReply | src/api/gemini.js:62-93 | Whatever JSON the reply holds is returned unchecked |
| Auth.AcceptedUsername | src/pages/Signup.jsx:15-19 | A username is refused exactly when it is all whitespace; otherwise its trimmed, non-empty form is kept |
| Auth.AlertKeepsOrder | src/pages/Signup.jsx:15-17 | An alert keeps every navigation right after a stored user |
| Auth.SignInKeepsOrder | src/pages/Signup.jsx:18-20 | Storing the user and then navigating keeps every navigation right after a stored user |
| Auth.Session.constructor | src/pages/Signup.jsx:7 | The session starts with the stored user and no effects |
| Auth.Session.SubmitUsername | src/pages/Signup.jsx:13-21 | A blank username only alerts; otherwise the trimmed name is stored and only then does the page navigate to "/" |
| Auth.SignupPage.constructor | src/pages/Signup.jsx:9-11 | The form starts empty; e-mail and password have no setter and stay "" |
| Auth.SignupPage.EditUsername | src/pages/Signup.jsx:40 | The username input stores its value |
| Auth.SignupPage.HandleCreate | src/pages/Signup.jsx:13-21 | Sign-up alerts "Enter a username" on a blank name, and otherwise stores the trimmed name and navigates to "/" |
| Auth.LoginPage.constructor | src/pages/LoginPage.jsx:9-10 | The form starts empty; the password has no setter and stays "" |
| Auth.LoginPage.EditUsername | src/pages/LoginPage.jsx:41 | The username input stores its value |
| Auth.LoginPage.HandleSignIn | src/pages/LoginPage.jsx:12-20 | Log-in alerts "Enter your username" on a blank name, and otherwise stores the trimmed name and navigates to "/" |
| Scenarios.MatchThenSubmit | src/components/FinderModal.jsx:151-169 | A match followed by a complete submission marks the flow submitted, but the posting stays listed because the provider supplies no `removeItem` |
| Scenarios.SubmitMatchedForm | src/components/FinderModal.jsx:151-169 | A matching flow with a complete contact form is confirmed, keeps the form open and the `removeItem` call throws |
| Scenarios.OpenMatchedForm | src/components/FinderModal.jsx:93-143 | Opening a posting, picking a photo, a loaded model and a matching comparison lead to the open contact form |
| Scenarios.MissThenAutoClose | src/components/FinderModal.jsx:128-136 | A miss auto-closes the modal but keeps the file and the sub-60 score, with "Next step" disabled |
| Scenarios.ReopenBeforeDeferredClear | src/contexts/FinderModalContext.jsx:9-17 | Reopening within 200 ms of a close leaves the modal shown but its selection cleared, so nothing renders |
| Scenarios.CompareFailureShowsNoScore | src/components/FinderModal.jsx:137-142 | A failed comparison shows no score, leaves "Next step" disabled and raises "Comparison failed" |
| Scenarios.ValidateBeforeModelLoads | src/components/FinderModal.jsx:101-104 | After the load started on opening fails, "Validate" is enabled again, starts nothing and raises "Model not ready" |
| Scenarios.BackToFeedThenReopen | src/components/FinderModal.jsx:316-323 | After "Back to feed" the file and score are reset, but the form is still open with "Next step" enabled and the mobile kept |
| Scenarios.AddLostItem | src/components/AddItemModal.jsx:63-93 | A successful upload lists the new anonymous posting first, trimmed and dated, and closes the form |
| Scenarios.OpenFilledForm | src/components/AddItemModal.jsx:137-170 | The opened add-item form holds the picked photo, the location and the description, not uploading |
| Scenarios.UploadFailureKeepsForm | src/components/AddItemModal.jsx:87-92 | A failed upload keeps the form shown, adds nothing and shows "Upload failed. Try again." |
| Scenarios.CancelDuringUpload | src/components/AddItemModal.jsx:25-27 | Cancelling during an upload that then succeeds lists the posting and shows the form again, because the close is a toggle |
| Scenarios.SeedFailureLeavesFeedEmpty | src/contexts/AddItemModalContext.jsx:35-37 | A failed fixture fetch leaves the feed empty |
| Scenarios.ToggleTwiceRestores | src/contexts/AddItemModalContext.jsx:43-45 | Two calls to `handleAddItem` restore the flag |
| Scenarios.BlankLogin | src/pages/LoginPage.jsx:14-17 | A blank log-in only alerts and stores no user |
| Scenarios.PaddedSignup | src/pages/Signup.jsx:18-20 | Signing up as "  ada " stores "ada" and then navigates to "/" |
| Scenarios.TrimOfPadded | src/pages/Signup.jsx:19 | "  ada " trims to "ada" |
| Scenarios.LeadingSpacesCounted | src/pages/Signup.jsx:19 | "  ada " starts with two whitespace characters |
| Scenarios.TrailingSpaceCounted | src/pages/Signup.jsx:19 | "ada " ends with one whitespace character |

## Left out

- The image embeddings are not modelled. The TensorFlow.js MobileNet model, its loading by dynamic import and the embedding are left out. A comparison's outcome is a parameter: the raw cosine of the two embeddings, or a failure. Image loading in the modal (`loadImageElementFromUrl`, `loadImageElementFromFile`) folds into that failure.
- Finder.Percent: the score is computed over exact reals. Floating-point rounding, `NaN` from a zero-norm embedding and the number-to-text rendering of the score in toasts are not modelled. Toasts are datatype values carrying the score.
- The browser, the network and the clock are parameters. That covers the upload's `fetch` and request construction, the `/data.json` fixture fetch (a failure is `None`), `Date.now()`, `new Date()`, `FileReader` and the canvas export. Console logging is left out.
- React mounting is not modelled. The feed mounts the add-item form afresh each time it is shown; the model keeps one form object, and a state update on an unmounted form has no visible effect. The fixture effect's `mounted` guard is also left out.
- Finder.FinderModal.BeginModelLoad may start a load whenever the modal is shown and no model is loaded. React reruns the effect only when `showFinderModal` or `modelLoaded` changes, so the model admits more retries than the component makes. The model also does not force a load to start when the modal is shown; the scenarios start it themselves.
- The "Back to feed" button has no `type` attribute, so it is a submit button inside the form. Whether its click also re-runs `handleSubmitFinder` depends on React's event and render timing, which the model does not capture.
- `compareItems` in src/api/gemini.js is modelled as a function, but none of the modelled components calls it. The modal compares with the on-device model instead.
- CalendarDate holds natural numbers, so a date before year 0 is not modelled; `getDate`, `getMonth` and `getFullYear` of a real `Date` never give a negative day or month.
- PadStart2: strings are sequences of code points, while `padStart` counts UTF-16 code units. A one-character field outside the Basic Multilingual Plane (an emoji) is padded with a '0' in the model and left alone by JavaScript. Date fields are digits, where the two agree.
- UploadOutcome: an ok JSON body without a `secure_url` makes the source post an item whose image URL is `undefined`; the model's `json` field is the `secure_url` itself, so that case is not represented.
- Markup, styling, routing beyond `navigate("/")`, the feed page, the authentication context's storage and src/api/manta.js are not part of this model.
- Behaviours of the code a reader may not expect, modelled as written:
  - the listing provider exposes no `removeItem`, so a finder's submission leaves the posting listed;
  - a comparison carries no staleness token, so a late result applies to whatever file is current;
  - the fixture replaces the listing rather than merging into it;
  - the add-item form closes through `handleAddItem`, which toggles the flag.
