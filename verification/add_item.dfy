/**
 * The "add a lost item" form (src/components/AddItemModal.jsx): the photo,
 * location and description inputs, the completeness check shared by the
 * submit button and the submit handler, the posting built from a successful
 * upload, and the `uploading`/`error` flags around the upload.
 *
 * The upload is asynchronous: `HandleSubmit` runs up to its `await`, and
 * `FinishUpload` runs the rest once the upload has settled. The upload's
 * response, the current date and `Date.now()` are parameters.
 */
module AddItem {
  import opened Common
  import opened JsText
  import opened Listing

  /** `formattedDate`: today as `DD/MM/YYYY`, the month 1-based. */
  function FormattedDate(today: CalendarDate): string
  {
    FormatDisplayDate(today.day, today.monthIndex + 1, today.year)
  }

  /** A number below 100 prints as two digits once padded, and reads back as itself. */
  lemma TwoDigitField(n: nat)
    requires n < 100
    ensures |PadStart2(NatToDecimal(n))| == 2
    ensures AllDigits(PadStart2(NatToDecimal(n)))
    ensures DecimalValue(PadStart2(NatToDecimal(n))) == n
  {
    var s := PadStart2(NatToDecimal(n));
    if n < 10 {
      assert NatToDecimal(n) == [DigitChar(n)];
      assert s == ['0', DigitChar(n)];
      assert s[..1] == ['0'] && ['0'][..0] == [];
      assert DecimalValue(['0']) == 0;
      assert DigitValue(DigitChar(n)) == n;
    } else {
      assert |NatToDecimal(n / 10)| == 1;
      DecimalRoundTrip(n);
    }
  }

  /** A four-digit year prints as four digits and reads back as itself. */
  lemma FourDigitYear(y: nat)
    requires 1000 <= y <= 9999
    ensures |NatToDecimal(y)| == 4 && AllDigits(NatToDecimal(y))
    ensures DecimalValue(NatToDecimal(y)) == y
  {
    assert |NatToDecimal(y / 1000)| == 1;
    assert |NatToDecimal(y / 100)| == 2;
    assert |NatToDecimal(y / 10)| == 3;
    DecimalRoundTrip(y);
  }

  /**
   * For a calendar date with a four-digit year, `formattedDate` is ten
   * characters `DD/MM/YYYY` whose fields read back as the day, the 1-based
   * month and the year.
   */
  lemma FormattedDateFields(today: CalendarDate)
    requires 1 <= today.day <= 31 && 0 <= today.monthIndex <= 11 && 1000 <= today.year <= 9999
    ensures |FormattedDate(today)| == 10
    ensures FormattedDate(today)[2] == '/' && FormattedDate(today)[5] == '/'
    ensures AllDigits(FormattedDate(today)[..2]) && DecimalValue(FormattedDate(today)[..2]) == today.day
    ensures AllDigits(FormattedDate(today)[3..5]) && DecimalValue(FormattedDate(today)[3..5]) == today.monthIndex + 1
    ensures AllDigits(FormattedDate(today)[6..]) && DecimalValue(FormattedDate(today)[6..]) == today.year
  {
    FormattedDateJoinsFields(today);
    FieldsReadBack(PadStart2(NatToDecimal(today.day)), PadStart2(NatToDecimal(today.monthIndex + 1)),
                   NatToDecimal(today.year), today.day, today.monthIndex + 1, today.year);
  }

  /** The three printed fields have the widths of `DD/MM/YYYY` and read back as the day, month and year. */
  lemma FieldsReadBack(d: string, m: string, y: string, day: nat, month: nat, year: nat)
    requires day < 100 && month < 100 && 1000 <= year <= 9999
    requires d == PadStart2(NatToDecimal(day)) && m == PadStart2(NatToDecimal(month)) && y == NatToDecimal(year)
    ensures |d + "/" + m + "/" + y| == 10
    ensures (d + "/" + m + "/" + y)[2] == '/' && (d + "/" + m + "/" + y)[5] == '/'
    ensures AllDigits((d + "/" + m + "/" + y)[..2]) && DecimalValue((d + "/" + m + "/" + y)[..2]) == day
    ensures AllDigits((d + "/" + m + "/" + y)[3..5]) && DecimalValue((d + "/" + m + "/" + y)[3..5]) == month
    ensures AllDigits((d + "/" + m + "/" + y)[6..]) && DecimalValue((d + "/" + m + "/" + y)[6..]) == year
  {
    TwoDigitField(day);
    TwoDigitField(month);
    FourDigitYear(year);
    SlashedFields(d, m, y, day, month, year);
  }

  /** For non-negative fields, `formattedDate` is the padded day, the padded month and the year, between slashes. */
  lemma FormattedDateJoinsFields(today: CalendarDate)
    ensures FormattedDate(today) == PadStart2(NatToDecimal(today.day)) + "/" + PadStart2(NatToDecimal(today.monthIndex + 1))
                                    + "/" + NatToDecimal(today.year)
  {
  }

  /** Two two-digit fields and a four-digit one, joined with slashes, sit at fixed positions and read back. */
  lemma SlashedFields(d: string, m: string, y: string, dv: nat, mv: nat, yv: nat)
    requires |d| == 2 && |m| == 2 && |y| == 4 && AllDigits(d) && AllDigits(m) && AllDigits(y)
    requires DecimalValue(d) == dv && DecimalValue(m) == mv && DecimalValue(y) == yv
    ensures |d + "/" + m + "/" + y| == 10
    ensures (d + "/" + m + "/" + y)[2] == '/' && (d + "/" + m + "/" + y)[5] == '/'
    ensures AllDigits((d + "/" + m + "/" + y)[..2]) && DecimalValue((d + "/" + m + "/" + y)[..2]) == dv
    ensures AllDigits((d + "/" + m + "/" + y)[3..5]) && DecimalValue((d + "/" + m + "/" + y)[3..5]) == mv
    ensures AllDigits((d + "/" + m + "/" + y)[6..]) && DecimalValue((d + "/" + m + "/" + y)[6..]) == yv
  {
    var f := d + "/" + m + "/" + y;
    assert f[..2] == d && f[3..5] == m && f[6..] == y;
  }

  /** The stored date is already in display form: the listing's date normaliser leaves it as it is. */
  lemma {:induction false} FormattedDateIsDisplayForm(today: CalendarDate)
    ensures ParseDateToDisplay(Text(FormattedDate(today))) == Text(FormattedDate(today))
  {
    var d := NatToDecimal(today.day);
    var m := NatToDecimal(today.monthIndex + 1);
    var y := NatToDecimal(today.year);
    PadStart2Chars(d, '-');
    PadStart2Chars(m, '-');
    NoCharInConcat(PadStart2(d), "/", '-');
    NoCharInConcat(PadStart2(d) + "/", PadStart2(m), '-');
    NoCharInConcat(PadStart2(d) + "/" + PadStart2(m), "/", '-');
    NoCharInConcat(PadStart2(d) + "/" + PadStart2(m) + "/", y, '-');
    assert FormattedDate(today) != "" by {
      assert |PadStart2(d)| >= 2;
    }
  }

  /** `currentUser || "anonymous"`. */
  function UsernameOrAnonymous(currentUser: Option<string>): (username: string)
    ensures username != ""
    ensures Truthy(currentUser) ==> username == currentUser.value
    ensures !Truthy(currentUser) ==> username == "anonymous"
  {
    if Truthy(currentUser) then currentUser.value else "anonymous"
  }

  /** `!file || !location.trim() || !description.trim()`: the check shared by the handler and the submit button. */
  function MissingFields(file: Option<FileRef>, location: string, description: string): (missing: bool)
    ensures missing <==> file.None? || AllWhitespace(location) || AllWhitespace(description)
  {
    file.None? || Trim(location) == "" || Trim(description) == ""
  }

  /** What the submit handler's closure holds while the upload runs. */
  datatype Submission = Submission(file: FileRef, location: string, description: string, currentUser: Option<string>, date: string)

  /**
   * The `newItem` literal: the given id and image URL, the user or
   * "anonymous", the trimmed location and description, and the date string.
   */
  function NewItem(id: int, sub: Submission, imgUrl: string): (item: Item)
    ensures item.id == id && item.imgUrl == imgUrl && item.date == Text(sub.date)
    ensures item.username != ""
    ensures Truthy(sub.currentUser) ==> item.username == sub.currentUser.value
    ensures IsTrimmed(item.location) && IsTrimmed(item.description)
    ensures item.location == "" <==> AllWhitespace(sub.location)
    ensures item.description == "" <==> AllWhitespace(sub.description)
    ensures item.location == Trim(sub.location) && item.description == Trim(sub.description)
    ensures item.username == UsernameOrAnonymous(sub.currentUser)
    ensures !Truthy(sub.currentUser) ==> item.username == "anonymous"
  {
    Item(id, UsernameOrAnonymous(sub.currentUser), Trim(sub.location), imgUrl, Trim(sub.description), Text(sub.date))
  }

  /**
   * What the upload `fetch` delivers: a response, or a rejection before any
   * response. `json` is the `secure_url` of the body read as JSON, or `None`
   * when the body is not JSON and `res.json()` rejects.
   */
  datatype UploadResponse =
    | Response(ok: bool, status: int, text: string, json: Option<string>)
    | FetchRejected

  /**
   * `uploadFileToCloudinary` once its request has settled: the `secure_url`
   * of an ok response with a JSON body, and a thrown error for a non-ok
   * response, a body that is not JSON, or a rejected request.
   */
  function UploadOutcome(response: UploadResponse): (r: Result<string, string>)
    ensures r.Success? <==> response.Response? && response.ok && response.json.Some?
    ensures r.Success? ==> r.value == response.json.value
    ensures response.Response? && !response.ok ==>
      r == Failure("Cloudinary upload failed " + IntToDecimal(response.status) + " " + response.text)
  {
    match response
    case FetchRejected => Failure("fetch rejected")
    case Response(ok, status, text, json) =>
      if !ok then Failure("Cloudinary upload failed " + IntToDecimal(status) + " " + text)
      else if json.None? then Failure("body is not JSON")
      else Success(json.value)
  }

  /** The form's state while it is shown. */
  class AddItemForm {
    const store: ListingStore

    var file: Option<FileRef>
    var fileName: string
    var location: string
    var description: string
    var uploading: bool
    var error: string
    /** The closure of a submission whose upload has not settled. */
    var inFlight: Option<Submission>

    /** The form is uploading exactly while a submission is in flight. */
    ghost predicate Valid()
      reads this
    {
      uploading <==> inFlight.Some?
    }

    constructor (store: ListingStore)
      ensures Valid() && this.store == store
      ensures file.None? && fileName == "" && location == "" && description == ""
      ensures !uploading && error == ""
    {
      this.store := store;
      file, fileName := None, "";
      location, description := "", "";
      uploading, error := false, "";
      inFlight := None;
    }

    /** The submit button is disabled while uploading and whenever the handler would refuse the fields. */
    function SubmitDisabled(): (disabled: bool)
      reads this
      ensures disabled <==> uploading || file.None? || AllWhitespace(location) || AllWhitespace(description)
    {
      uploading || MissingFields(file, location, description)
    }

    /** The file input's `onChange`. */
    method PickFile(f: Option<FileRef>)
      requires Valid()
      modifies this
      ensures Valid() && file == f && fileName == FileNameOf(f)
      ensures location == old(location) && description == old(description)
      ensures uploading == old(uploading) && error == old(error) && inFlight == old(inFlight)
    {
      file := f;
      fileName := FileNameOf(f);
    }

    method EditLocation(value: string)
      requires Valid()
      modifies this
      ensures Valid() && location == value
      ensures file == old(file) && description == old(description)
      ensures uploading == old(uploading) && error == old(error) && inFlight == old(inFlight)
    {
      location := value;
    }

    method EditDescription(value: string)
      requires Valid()
      modifies this
      ensures Valid() && description == value
      ensures file == old(file) && location == old(location)
      ensures uploading == old(uploading) && error == old(error) && inFlight == old(inFlight)
    {
      description := value;
    }

    /**
     * `handleSubmit` up to the upload's `await`: the error is cleared, an
     * incomplete form is refused with "Please complete all fields", and a
     * complete one starts uploading. Nothing is added to the listing yet.
     */
    method HandleSubmit(currentUser: Option<string>, today: CalendarDate) returns (started: bool)
      requires Valid() && !uploading
      modifies this
      ensures Valid()
      ensures started <==> !MissingFields(old(file), old(location), old(description))
      ensures started ==> error == "" && uploading
      ensures started ==> inFlight == Some(Submission(old(file).value, old(location), old(description), currentUser, FormattedDate(today)))
      ensures !started ==> error == "Please complete all fields" && !uploading
      ensures file == old(file) && location == old(location) && description == old(description)
    {
      started := Validate();
      if started {
        BeginUpload(Submission(file.value, location, description, currentUser, FormattedDate(today)));
      }
    }

    /** The validation at the head of `handleSubmit`: the error is cleared, then set again if a field is missing. */
    method Validate() returns (complete: bool)
      requires Valid()
      modifies this
      ensures Valid()
      ensures complete <==> !MissingFields(file, location, description)
      ensures error == if complete then "" else "Please complete all fields"
      ensures file == old(file) && location == old(location) && description == old(description)
      ensures uploading == old(uploading) && inFlight == old(inFlight)
    {
      error := "";
      if MissingFields(file, location, description) {
        error := "Please complete all fields";
        return false;
      }
      complete := true;
    }

    /** `setUploading(true)` with the submission's closure captured. */
    method BeginUpload(sub: Submission)
      requires Valid() && !uploading
      modifies this
      ensures Valid() && uploading && inFlight == Some(sub)
      ensures file == old(file) && location == old(location) && description == old(description)
      ensures error == old(error)
    {
      uploading := true;
      inFlight := Some(sub);
    }

    /**
     * The rest of `handleSubmit` once the upload has settled. On success the
     * new posting goes to the top of the listing and `handleCloseModal` runs,
     * which flips the add-item flag (the form is handed `handleAddItem`); on
     * failure the error is shown and nothing is added. Uploading ends on
     * both paths.
     */
    method FinishUpload(response: UploadResponse, id: int)
      requires Valid() && uploading
      modifies this, store
      ensures Valid() && !uploading && inFlight.None?
      ensures UploadOutcome(response).Success? ==>
        store.items == [NewItem(id, old(inFlight).value, UploadOutcome(response).value)] + old(store.items) &&
        store.showAddItemModal == !old(store.showAddItemModal) &&
        error == old(error)
      ensures UploadOutcome(response).Failure? ==>
        store.items == old(store.items) &&
        store.showAddItemModal == old(store.showAddItemModal) &&
        error == "Upload failed. Try again."
      ensures file == old(file) && location == old(location) && description == old(description)
    {
      var outcome := UploadOutcome(response);
      if outcome.Success? {
        Publish(NewItem(id, inFlight.value, outcome.value));
      } else {
        error := "Upload failed. Try again.";
      }
      uploading := false;
      inFlight := None;
    }

    /** `addItem(newItem)` followed by `handleCloseModal()`. */
    method Publish(item: Item)
      modifies store
      ensures store.items == [item] + old(store.items)
      ensures store.showAddItemModal == !old(store.showAddItemModal)
    {
      store.AddItem(item);
      HandleCloseModal();
    }

    /** `handleCloseModal` (Cancel, the backdrop, a successful upload): it calls the `handleAddItem` it was given. */
    method HandleCloseModal()
      modifies store
      ensures store.showAddItemModal == !old(store.showAddItemModal)
      ensures store.items == old(store.items)
    {
      store.HandleAddItem();
    }

    /** Cancel or a backdrop click on the shown form hides it. */
    method Cancel()
      requires store.showAddItemModal
      modifies store
      ensures !store.showAddItemModal
      ensures store.items == old(store.items)
    {
      HandleCloseModal();
    }
  }
}
