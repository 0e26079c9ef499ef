/**
 * The listing store of the feed (src/contexts/AddItemModalContext.jsx): the
 * list of lost-item postings, most recent first, the flag that shows the
 * "add a lost item" form, and the date normaliser applied to the postings
 * read from the static fixture.
 */
module Listing {
  import opened Common
  import opened JsText

  /** What a JavaScript `Date` reports: `getDate()`, `getMonth()` (0-based) and `getFullYear()`. */
  datatype CalendarDate = CalendarDate(day: nat, monthIndex: nat, year: nat)

  /**
   * The `date` field of a posting, dynamically typed as in the source: absent
   * (`null`/`undefined`), a string, a `Date` object, or any other value (a
   * number, an object), of which only its truthiness matters.
   */
  datatype DateField = Missing | Text(text: string) | Calendar(date: CalendarDate) | OtherValue(truthy: bool)

  /** A lost-item posting as the feed stores it. */
  datatype Item = Item(id: int, username: string, location: string, imgUrl: string, description: string, date: DateField)

  /** `!d` in JavaScript: absent values, `""` and the falsy non-string values. */
  predicate IsFalsy(d: DateField)
  {
    d.Missing? || d == Text("") || d == OtherValue(false)
  }

  /** `DD/MM/YYYY`: day and month rendered with `String(..)` and padded with "0" to two characters. */
  function FormatDisplayDate(day: nat, month: nat, year: nat): string
  {
    PadStart2(NatToDecimal(day)) + "/" + PadStart2(NatToDecimal(month)) + "/" + NatToDecimal(year)
  }

  /** The `${day}/${m}/${y}` template applied to the fields of `d.split("-")`, where `day` may be `undefined`. */
  function FormatDashedFields(fields: seq<string>): string
    requires |fields| >= 1
  {
    PadStart2(JsString(Field(fields, 2))) + "/" + PadStart2(JsString(Field(fields, 1))) + "/" + fields[0]
  }

  lemma DashedFieldsHaveNoDash(fields: seq<string>)
    requires |fields| >= 1
    requires forall i :: 0 <= i < |fields| ==> '-' !in fields[i]
    ensures '-' !in FormatDashedFields(fields)
    ensures FormatDashedFields(fields) != ""
  {
    var day := JsString(Field(fields, 2));
    var m := JsString(Field(fields, 1));
    assert '-' !in day && '-' !in m && '-' !in fields[0];
    PadStart2Chars(day, '-');
    PadStart2Chars(m, '-');
    NoCharInConcat(PadStart2(day), "/", '-');
    NoCharInConcat(PadStart2(day) + "/", PadStart2(m), '-');
    NoCharInConcat(PadStart2(day) + "/" + PadStart2(m), "/", '-');
    NoCharInConcat(PadStart2(day) + "/" + PadStart2(m) + "/", fields[0], '-');
  }

  lemma NoCharInConcat(a: string, b: string, c: char)
    requires c !in a && c !in b
    ensures c !in a + b
  {
  }

  /**
   * `parseDateToDisplay`: a falsy value becomes "", a string holding '-' is
   * read as `y-m-day` and printed as `day/m/y`, a `Date` is printed as
   * `DD/MM/YYYY`, and anything else is returned as it is. A string never
   * comes out holding a '-'.
   */
  function ParseDateToDisplay(d: DateField): (r: DateField)
    ensures IsFalsy(d) ==> r == Text("")
    ensures d.Text? && d.text != "" && '-' !in d.text ==> r == d
    ensures d.Text? ==> r.Text? && '-' !in r.text
    ensures d.Calendar? ==> r.Text?
    ensures d == OtherValue(true) ==> r == d
  {
    if IsFalsy(d) then Text("")
    else match d
      case Text(s) => Text(DisplayText(s))
      case Calendar(c) => Text(FormatDisplayDate(c.day, c.monthIndex + 1, c.year))
      case _ => d
  }

  /** The string case of `parseDateToDisplay`: a string holding '-' is reordered from its fields, any other is kept. */
  function DisplayText(s: string): (r: string)
    ensures '-' !in r
    ensures '-' !in s ==> r == s
  {
    if '-' in s then
      var fields := Split(s, '-');
      DashedFieldsHaveNoDash(fields);
      FormatDashedFields(fields)
    else s
  }

  /** On strings the normaliser is idempotent: a normalised date is left as it is. */
  lemma {:induction false} NormalisingTextTwice(s: string)
    ensures ParseDateToDisplay(ParseDateToDisplay(Text(s))) == ParseDateToDisplay(Text(s))
  {
    var r := ParseDateToDisplay(Text(s));
    if '-' in s {
      assert r == Text(DisplayText(s));
      DashedFieldsHaveNoDash(Split(s, '-'));
    }
  }

  /** `y-m-day` becomes `day/m/y`, with day and month padded to two characters. */
  lemma {:induction false} DashedDateReordered(y: string, m: string, day: string)
    requires '-' !in y && '-' !in m && '-' !in day
    ensures ParseDateToDisplay(Text(y + "-" + m + "-" + day)) == Text(PadStart2(day) + "/" + PadStart2(m) + "/" + y)
  {
    var s := y + "-" + m + "-" + day;
    JoinThree(y, m, day);
    SplitJoin([y, m, day], '-');
    assert s[|y|] == '-';
    DashedText(s);
    FieldsWithDay(y, m, day);
  }

  lemma JoinThree(y: string, m: string, day: string)
    ensures Join([y, m, day], '-') == y + "-" + m + "-" + day
  {
    assert [y, m, day][1..] == [m, day];
    assert [m, day][1..] == [day];
    assert Join([day], '-') == day;
    assert Join([m, day], '-') == m + "-" + day;
  }

  lemma FieldsWithDay(y: string, m: string, day: string)
    ensures FormatDashedFields([y, m, day]) == PadStart2(day) + "/" + PadStart2(m) + "/" + y
  {
    assert Field([y, m, day], 2) == Some(day) && Field([y, m, day], 1) == Some(m);
  }

  lemma SplitTwoFields(y: string, m: string)
    requires '-' !in y && '-' !in m
    ensures Split(y + "-" + m, '-') == [y, m]
  {
    assert Join([y, m], '-') == y + "-" + m by {
      assert [y, m][1..] == [m];
    }
    SplitJoin([y, m], '-');
  }

  /** A string holding '-' is printed from the fields of its split. */
  lemma DashedText(s: string)
    requires '-' in s
    ensures ParseDateToDisplay(Text(s)) == Text(FormatDashedFields(Split(s, '-')))
  {
    assert !IsFalsy(Text(s));
  }

  /** A string with a single '-' has no day field: the day prints as "undefined". */
  lemma {:induction false} MissingDayPrintsUndefined(y: string, m: string)
    requires '-' !in y && '-' !in m
    ensures ParseDateToDisplay(Text(y + "-" + m)) == Text("undefined/" + PadStart2(m) + "/" + y)
  {
    var s := y + "-" + m;
    assert s[|y|] == '-';
    DashedText(s);
    SplitTwoFields(y, m);
    FieldsWithoutDay(y, m);
  }

  lemma FieldsWithoutDay(y: string, m: string)
    ensures FormatDashedFields([y, m]) == "undefined/" + PadStart2(m) + "/" + y
  {
    assert Field([y, m], 2) == None && Field([y, m], 1) == Some(m);
    assert JsString(None) == "undefined";
    assert PadStart2("undefined") == "undefined";
  }

  /** The ISO form `YYYY-MM-DD` of a calendar date, as the fixture stores dates. */
  function IsoDate(c: CalendarDate): string
  {
    NatToDecimal(c.year) + "-" + PadStart2(NatToDecimal(c.monthIndex + 1)) + "-" + PadStart2(NatToDecimal(c.day))
  }

  /** A fixture date in ISO form is displayed exactly as the same date held in a `Date` object. */
  lemma {:induction false} IsoDateDisplaysLikeCalendar(c: CalendarDate)
    ensures ParseDateToDisplay(Text(IsoDate(c))) == ParseDateToDisplay(Calendar(c))
  {
    var y := NatToDecimal(c.year);
    var m := NatToDecimal(c.monthIndex + 1);
    var day := NatToDecimal(c.day);
    NoDashInDecimal(c.year);
    NoDashInDecimal(c.monthIndex + 1);
    NoDashInDecimal(c.day);
    PaddedDashedFields(y, m, day);
    CalendarText(c);
  }

  lemma NoDashInDecimal(n: nat)
    ensures '-' !in NatToDecimal(n)
  {
    var r := NatToDecimal(n);
    assert forall i :: 0 <= i < |r| ==> r[i] != '-';
  }

  /** Dash-free fields padded as in the ISO form are reordered with their padding kept as it is. */
  lemma PaddedDashedFields(y: string, m: string, day: string)
    requires '-' !in y && '-' !in m && '-' !in day
    ensures ParseDateToDisplay(Text(y + "-" + PadStart2(m) + "-" + PadStart2(day)))
         == Text(PadStart2(day) + "/" + PadStart2(m) + "/" + y)
  {
    PadStart2Chars(m, '-');
    PadStart2Chars(day, '-');
    DashedDateReordered(y, PadStart2(m), PadStart2(day));
    PaddedIsPadded(m);
    PaddedIsPadded(day);
  }

  lemma CalendarText(c: CalendarDate)
    ensures ParseDateToDisplay(Calendar(c)) == Text(FormatDisplayDate(c.day, c.monthIndex + 1, c.year))
  {
    assert !IsFalsy(Calendar(c));
  }

  /** Padding an already padded field changes nothing. */
  lemma PaddedIsPadded(s: string)
    ensures PadStart2(PadStart2(s)) == PadStart2(s)
  {
    var p := PadStart2(s);
    assert |PadStart2(p)| == |p|;
  }

  /** The seed normalisation: every fetched posting, in order, with only its `date` normalised. */
  function NormaliseSeed(fetched: seq<Item>): (r: seq<Item>)
    ensures |r| == |fetched|
    ensures forall i :: 0 <= i < |r| ==>
      r[i].date == ParseDateToDisplay(fetched[i].date) && r[i].(date := fetched[i].date) == fetched[i]
  {
    if fetched == [] then []
    else [fetched[0].(date := ParseDateToDisplay(fetched[0].date))] + NormaliseSeed(fetched[1..])
  }

  function Reversed(xs: seq<Item>): (r: seq<Item>)
  {
    if xs == [] then [] else Reversed(xs[1..]) + [xs[0]]
  }

  /** The listing after `addItem(x)` has been called for each `x` of `added`, in order. */
  function AfterAdding(items: seq<Item>, added: seq<Item>): seq<Item>
    decreases added
  {
    if added == [] then items else AfterAdding([added[0]] + items, added[1..])
  }

  /** Additions list newest first: N additions appear in reverse insertion order, ahead of the earlier postings. */
  lemma {:induction false} AddingListsNewestFirst(items: seq<Item>, added: seq<Item>)
    ensures AfterAdding(items, added) == Reversed(added) + items
    decreases added
  {
    if added != [] {
      AddingListsNewestFirst([added[0]] + items, added[1..]);
      assert Reversed(added) == Reversed(added[1..]) + [added[0]];
    }
  }

  /** The provider's state: the add-item flag and the postings. */
  class ListingStore {
    var showAddItemModal: bool
    var items: seq<Item>

    constructor ()
      ensures !showAddItemModal && items == []
    {
      showAddItemModal := false;
      items := [];
    }

    /** `handleAddItem`: flips the add-item flag. */
    method HandleAddItem()
      modifies this
      ensures showAddItemModal == !old(showAddItemModal)
      ensures items == old(items)
    {
      showAddItemModal := !showAddItemModal;
    }

    /** `setShowAddItemModal(v)`, exposed by the provider's value. */
    method SetShowAddItemModal(v: bool)
      modifies this
      ensures showAddItemModal == v
      ensures items == old(items)
    {
      showAddItemModal := v;
    }

    /** `addItem`: the new posting goes first, the earlier ones keep their order. */
    method AddItem(newItem: Item)
      modifies this
      ensures items == [newItem] + old(items)
      ensures showAddItemModal == old(showAddItemModal)
    {
      items := [newItem] + items;
    }

    /**
     * The fixture fetch settling: on success the listing is replaced by the
     * normalised fixture; on any failure (`None`) it is left as it was.
     */
    method ReceiveSeed(fetched: Option<seq<Item>>)
      modifies this
      ensures items == if fetched.Some? then NormaliseSeed(fetched.value) else old(items)
      ensures showAddItemModal == old(showAddItemModal)
    {
      if fetched.Some? {
        items := NormaliseSeed(fetched.value);
      }
    }
  }

  /** `useModalContext`: throws when no provider value is present. */
  function UseModalContext<V>(context: Option<V>): (r: Result<V, string>)
    ensures r.Success? <==> context.Some?
    ensures r.Success? ==> r.value == context.value
    ensures r.Failure? ==> r.error == "useModalContext must be used within an AddItemModalProvider"
  {
    match context
    case Some(v) => Success(v)
    case None => Failure("useModalContext must be used within an AddItemModalProvider")
  }
}
