/**
 * The manage-restaurant form: the values it holds, its validation schema, the
 * values it loads from an existing restaurant, and the multipart field list it
 * submits.
 *
 * Menu prices are whole dollars in the form; the delivery price is held as an
 * exact amount of cents, so scaling it by 100 is exact.
 */
module ManageRestaurantForm {
  import opened Wrappers
  import opened Types
  import opened Decimal

  /** A price input: text the user typed, or a number the form was reset with. */
  datatype PriceField = Text(s: string) | Whole(n: int)

  /** One menu row as the form holds it. */
  datatype MenuRow = MenuRow(name: string, price: PriceField)

  /** A selected image file, kept opaque. */
  datatype FileRef = FileRef(id: nat)

  /** The form's values; None is a field that was never filled (`undefined`). */
  datatype FormValues = FormValues(
    restaurantName: Option<string>,
    country: Option<string>,
    city: Option<string>,
    deliveryPrice: Option<nat>,
    estimatedDeliveryTime: Option<int>,
    cuisines: seq<string>,
    menuItems: seq<MenuRow>,
    imageUrl: Option<string>,
    imageFile: Option<FileRef>)

  /** A menu row after validation: the price coerced to a number of dollars. */
  datatype ParsedRow = ParsedRow(name: string, price: int)

  /** What the schema hands to `onSubmit`. */
  datatype ParsedForm = ParsedForm(
    restaurantName: string,
    country: string,
    city: string,
    deliveryPrice: nat,
    estimatedDeliveryTime: int,
    cuisines: seq<string>,
    menuItems: seq<ParsedRow>,
    imageUrl: Option<string>,
    imageFile: Option<FileRef>)

  datatype FieldIssue = FieldIssue(path: string, message: string)

  // ---------------------------------------------------------------- values

  /** `defaultValues`: no cuisine and one blank menu row priced 0. */
  function Defaults(): FormValues
  {
    FormValues(None, None, None, None, None, [], [MenuRow("", Whole(0))], None, None)
  }

  /** `parseInt((price / 100).toFixed(2))`: whole dollars, the cents dropped. */
  function LoadedPrice(cents: nat): int
  {
    cents / 100
  }

  function LoadedRows(items: seq<MenuItem>): (r: seq<MenuRow>)
    ensures |r| == |items|
  {
    seq(|items|, i requires 0 <= i < |items| => MenuRow(items[i].name, Whole(LoadedPrice(items[i].price))))
  }

  /** The effect on `restaurant`: nothing without one, otherwise the restaurant's values. */
  function EditLoad(form: FormValues, restaurant: Option<Restaurant>): FormValues
  {
    match restaurant
    case None => form
    case Some(r) =>
      FormValues(Some(r.restaurantName), Some(r.country), Some(r.city), Some(r.deliveryPrice),
                 Some(r.estimatedDeliveryTime), r.cuisines, LoadedRows(r.menuItems),
                 Some(r.imageUrl), None)
  }

  // ------------------------------------------------------------ validation

  /**
   * The white space `Number()` strips from both ends of its argument: the
   * ASCII spaces and line breaks, no-break space, the byte order mark and the
   * line and paragraph separators.
   */
  predicate IsJsSpace(c: char)
  {
    c == ' ' || c == '\t' || c == '\n' || c == '\r' || c as int == 0x0B || c as int == 0x0C
    || c as int == 0xA0 || c as int == 0xFEFF || c as int == 0x2028 || c as int == 0x2029
  }

  function TrimStart(s: string): (r: string)
    ensures |r| <= |s|
  {
    if s != [] && IsJsSpace(s[0]) then TrimStart(s[1..]) else s
  }

  function TrimEnd(s: string): (r: string)
    ensures |r| <= |s|
  {
    if s != [] && IsJsSpace(s[|s| - 1]) then TrimEnd(s[..|s| - 1]) else s
  }

  /** `Number()` on integer text, after trimming: empty is 0, an optional sign, then digits. */
  function NumberOfText(t: string): Option<int>
  {
    if t == "" then Some(0)
    else if AllDigits(t) then Some(DigitsValue(t))
    else if |t| >= 2 && t[0] == '+' && AllDigits(t[1..]) then Some(DigitsValue(t[1..]))
    else if |t| >= 2 && t[0] == '-' && AllDigits(t[1..]) then Some(0 - DigitsValue(t[1..]))
    else None
  }

  /** `z.coerce.number()`: `Number()` of the trimmed text, None standing for NaN. */
  function CoercePrice(p: PriceField): Option<int>
  {
    match p
    case Whole(n) => Some(n)
    case Text(s) => NumberOfText(TrimEnd(TrimStart(s)))
  }

  function RowPath(i: nat, field: string): string
  {
    "menuItems." + NatToString(i) + "." + field
  }

  /** The issues of row i: an empty name; a price that is NaN or below 1. */
  function RowIssues(row: MenuRow, i: nat): seq<FieldIssue>
  {
    (if row.name == "" then [FieldIssue(RowPath(i, "name"), "is required")] else [])
    + (match CoercePrice(row.price)
       case None => [FieldIssue(RowPath(i, "price"), "Expected number, received nan")]
       case Some(x) => if x < 1 then [FieldIssue(RowPath(i, "price"), "is required ( > $1 )")] else [])
  }

  predicate RowValid(row: MenuRow)
  {
    row.name != "" && CoercePrice(row.price).Some? && CoercePrice(row.price).value >= 1
  }

  function RowsIssues(rows: seq<MenuRow>, n: nat): seq<FieldIssue>
    requires n <= |rows|
  {
    if n == 0 then [] else RowsIssues(rows, n - 1) + RowIssues(rows[n - 1], n - 1)
  }

  /** The issues of each field, in schema order. */
  function FieldIssues(v: FormValues): seq<FieldIssue>
  {
    (if v.restaurantName.None? then [FieldIssue("restaurantName", "Restarurant name is required")] else [])
    + (if v.country.None? then [FieldIssue("country", "Country is required")] else [])
    + (if v.city.None? then [FieldIssue("city", "City is required")] else [])
    + (if v.deliveryPrice.None? then [FieldIssue("deliveryPrice", "Must be a valid number")] else [])
    + (if v.estimatedDeliveryTime.None? then [FieldIssue("estimatedDeliveryTime", "Must be a valid number")] else [])
    + (if v.cuisines == [] then [FieldIssue("cuisines", "Please select at least one item")] else [])
    + RowsIssues(v.menuItems, |v.menuItems|)
  }

  /**
   * Whether some field failed its type check (a missing string or a number
   * that is NaN). Such an issue aborts the object; the size checks (no
   * cuisine, an empty row name, a price below 1) only mark it invalid.
   */
  predicate Aborted(v: FormValues)
  {
    || v.restaurantName.None? || v.country.None? || v.city.None?
    || v.deliveryPrice.None? || v.estimatedDeliveryTime.None?
    || !(forall i :: 0 <= i < |v.menuItems| ==> CoercePrice(v.menuItems[i].price).Some?)
  }

  /** `data.imageUrl || data.imageFile`. */
  predicate ImagePresent(v: FormValues)
  {
    (v.imageUrl.Some? && v.imageUrl.value != "") || v.imageFile.Some?
  }

  const ImageIssue: FieldIssue := FieldIssue("imageFile", "Either image ULR or image file must be provided")

  /**
   * All issues. The image rule is a refinement of the object schema: it runs
   * unless the object was aborted, also when size checks failed, and reports
   * on `imageFile` after the field issues.
   */
  function Issues(v: FormValues): seq<FieldIssue>
  {
    FieldIssues(v) + (if !Aborted(v) && !ImagePresent(v) then [ImageIssue] else [])
  }

  function ParseRows(rows: seq<MenuRow>): seq<ParsedRow>
    requires forall i :: 0 <= i < |rows| ==> CoercePrice(rows[i].price).Some?
  {
    seq(|rows|, i requires 0 <= i < |rows| => ParsedRow(rows[i].name, CoercePrice(rows[i].price).value))
  }

  lemma {:induction false} RowsIssuesEmpty(rows: seq<MenuRow>, n: nat)
    requires n <= |rows|
    ensures RowsIssues(rows, n) == [] <==> forall i :: 0 <= i < n ==> RowValid(rows[i])
  {
    if n > 0 {
      RowsIssuesEmpty(rows, n - 1);
    }
  }

  /** `handleSubmit`: the parsed values when the schema accepts, the issues otherwise. */
  function Validate(v: FormValues): (r: Result<ParsedForm, seq<FieldIssue>>)
    ensures r.Err? ==> r.error == Issues(v) && r.error != []
  {
    if Issues(v) != [] then Err(Issues(v))
    else
      RowsIssuesEmpty(v.menuItems, |v.menuItems|);
      Ok(ParsedForm(v.restaurantName.value, v.country.value, v.city.value, v.deliveryPrice.value,
                    v.estimatedDeliveryTime.value, v.cuisines, ParseRows(v.menuItems),
                    v.imageUrl, v.imageFile))
  }

  /**
   * The form is accepted exactly when the text fields and numbers are present,
   * at least one cuisine is chosen, every menu row has a name and a price of at
   * least 1, and an image URL or file is present.
   */
  lemma ValidateAccepts(v: FormValues)
    ensures Validate(v).Ok? <==>
      && v.restaurantName.Some? && v.country.Some? && v.city.Some?
      && v.deliveryPrice.Some? && v.estimatedDeliveryTime.Some?
      && v.cuisines != []
      && (forall i :: 0 <= i < |v.menuItems| ==> RowValid(v.menuItems[i]))
      && ImagePresent(v)
  {
    RowsIssuesEmpty(v.menuItems, |v.menuItems|);
  }

  /** Empty names and an empty menu pass: those fields only need to be present. */
  lemma EmptyTextAccepted()
    ensures Validate(FormValues(Some(""), Some(""), Some(""), Some(0), Some(0), ["x"], [], Some("u"), None)).Ok?
  {
  }

  /** Without an image, an otherwise valid form is rejected on `imageFile` alone. */
  lemma ImageIssueOnImageFile(v: FormValues)
    requires FieldIssues(v) == [] && !ImagePresent(v)
    ensures Issues(v) == [ImageIssue]
  {
    RowsIssuesEmpty(v.menuItems, |v.menuItems|);
  }

  /** Row issues are reported under `menuItems.<i>.…`. */
  lemma {:induction false} RowsIssuesPaths(rows: seq<MenuRow>, n: nat)
    requires n <= |rows|
    ensures forall k :: 0 <= k < |RowsIssues(rows, n)| ==> "menuItems." <= RowsIssues(rows, n)[k].path
  {
    if n > 0 {
      RowsIssuesPaths(rows, n - 1);
      var i := n - 1;
      assert "menuItems." <= RowPath(i, "name") && "menuItems." <= RowPath(i, "price");
    }
  }

  /**
   * The image issue is reported exactly when the object was not aborted and
   * there is no image, whatever size checks failed beside it.
   */
  lemma ImageIssueIff(v: FormValues)
    ensures ImageIssue in Issues(v) <==> !Aborted(v) && !ImagePresent(v)
    ensures !Aborted(v) && !ImagePresent(v) ==> Issues(v) == FieldIssues(v) + [ImageIssue]
  {
    RowsIssuesPaths(v.menuItems, |v.menuItems|);
    assert ImageIssue.path[0] == 'i';
    assert ImageIssue !in FieldIssues(v);
  }

  /** No cuisine and no image: both are reported, the image issue last. */
  lemma EmptyCuisinesAndNoImage()
    ensures Issues(FormValues(Some("a"), Some("b"), Some("c"), Some(100), Some(30), [], [], Some(""), None))
         == [FieldIssue("cuisines", "Please select at least one item"), ImageIssue]
  {
    var v := FormValues(Some("a"), Some("b"), Some("c"), Some(100), Some(30), [], [], Some(""), None);
    assert FieldIssues(v) == [FieldIssue("cuisines", "Please select at least one item")];
  }

  lemma TwelveValue()
    ensures AllDigits("12") && DigitsValue("12") == 12
  {
    assert "12"[..1] == "1";
  }

  /** `Number()` trims white space on either side. */
  lemma CoercePriceTrims()
    ensures CoercePrice(Text(" 12")) == Some(12) && CoercePrice(Text("12 ")) == Some(12)
    ensures CoercePrice(Text("  ")) == Some(0)
  {
    TwelveValue();
    assert TrimStart(" 12") == TrimStart(" 12"[1..]);
    assert " 12"[1..] == "12";
    assert TrimEnd("12 ") == TrimEnd("12 "[..2]);
    assert "12 "[..2] == "12";
    assert TrimStart("  ") == TrimStart("  "[1..]);
    assert "  "[1..] == " ";
  }

  /** `Number()` reads a leading sign; a sign alone or trailing letters are NaN. */
  lemma CoercePriceSigns()
    ensures CoercePrice(Text("+12")) == Some(12) && CoercePrice(Text("-5")) == Some(-5)
    ensures CoercePrice(Text("+")) == None && CoercePrice(Text("12a")) == None
  {
    TwelveValue();
    assert "+12"[1..] == "12";
    assert "-5"[1..] == "5";
    assert !IsDigit("12a"[2]);
    assert !IsDigit("+"[0]);
  }

  predicate AllJsSpace(w: string)
  {
    forall i :: 0 <= i < |w| ==> IsJsSpace(w[i])
  }

  lemma {:induction false} TrimStartSpaces(w: string, u: string)
    requires AllJsSpace(w)
    ensures TrimStart(w + u) == TrimStart(u)
  {
    if w != [] {
      assert (w + u)[1..] == w[1..] + u;
      TrimStartSpaces(w[1..], u);
    } else {
      assert w + u == u;
    }
  }

  lemma {:induction false} TrimEndSpaces(u: string, w: string)
    requires AllJsSpace(w)
    ensures TrimEnd(u + w) == TrimEnd(u)
  {
    if w != [] {
      assert (u + w)[..|u + w| - 1] == u + w[..|w| - 1];
      TrimEndSpaces(u, w[..|w| - 1]);
    } else {
      assert u + w == u;
    }
  }

  lemma TrimUnpadded(s: string)
    requires s != "" ==> !IsJsSpace(s[0]) && !IsJsSpace(s[|s| - 1])
    ensures TrimEnd(TrimStart(s)) == s
  {
  }

  /** Surrounding white space never changes the coerced price. */
  lemma CoercePricePadding(w1: string, t: string, w2: string)
    requires AllJsSpace(w1) && AllJsSpace(w2)
    requires t != "" ==> !IsJsSpace(t[0]) && !IsJsSpace(t[|t| - 1])
    ensures CoercePrice(Text(w1 + t + w2)) == CoercePrice(Text(t))
  {
    TrimUnpadded(t);
    assert w1 + t + w2 == w1 + (t + w2);
    TrimStartSpaces(w1, t + w2);
    if t == "" {
      assert t + w2 == w2 + "";
      TrimStartSpaces(w2, "");
      assert TrimStart(w1 + t + w2) == "";
    } else {
      assert (t + w2)[0] == t[0];
      TrimEndSpaces(t, w2);
    }
  }

  lemma NegativeText(d: string)
    requires d != [] && AllDigits(d)
    ensures NumberOfText("-" + d) == Some(0 - DigitsValue(d))
  {
    var s := "-" + d;
    assert s[1..] == d;
    assert !IsDigit(s[0]);
  }

  /** An integer's own decimal text coerces back to that integer. */
  lemma CoercePriceIntText(n: int)
    ensures CoercePrice(Text(IntToString(n))) == Some(n)
  {
    var m: nat := if n < 0 then -n else n;
    NatToStringShape(m);
    NatToStringRoundTrip(m);
    var d := NatToString(m);
    var s := IntToString(n);
    if n < 0 {
      assert s == "-" + d;
      assert s[|s| - 1] == d[|d| - 1];
      TrimUnpadded(s);
      NegativeText(d);
    } else {
      TrimUnpadded(s);
    }
  }

  /** A negative price is a number, so it is reported by the size check, not as NaN. */
  lemma NegativePriceBelowOne(name: string, i: nat)
    ensures RowIssues(MenuRow(name, Text("-5")), i)
         == (if name == "" then [FieldIssue(RowPath(i, "name"), "is required")] else [])
            + [FieldIssue(RowPath(i, "price"), "is required ( > $1 )")]
  {
    CoercePriceSigns();
  }

  /** The untouched defaults are rejected: no cuisine, and the blank row. */
  lemma DefaultsRejected()
    ensures Validate(Defaults()).Err?
    ensures FieldIssue("cuisines", "Please select at least one item") in Issues(Defaults())
  {
    var d := Defaults();
    assert FieldIssues(d)[5] == FieldIssue("cuisines", "Please select at least one item");
  }

  /** With no restaurant the defaults stay. */
  lemma NoRestaurantKeepsDefaults()
    ensures EditLoad(Defaults(), None) == Defaults()
    ensures EditLoad(Defaults(), None).cuisines == []
    ensures EditLoad(Defaults(), None).menuItems == [MenuRow("", Whole(0))]
  {
  }

  // --------------------------------------------------------- serialisation

  datatype FormValue = TextValue(s: string) | FileValue(f: FileRef)

  type FormEntry = (string, FormValue)

  /** `FormData`: an ordered list of named parts, filled by `append`. */
  class FormData {
    var entries: seq<FormEntry>

    constructor ()
      ensures entries == []
    {
      entries := [];
    }

    method Append(name: string, value: FormValue)
      modifies this
      ensures entries == old(entries) + [(name, value)]
    {
      entries := entries + [(name, value)];
    }
  }

  function CuisineKey(i: nat): string
  {
    "cuisines[" + NatToString(i) + "]"
  }

  function MenuNameKey(i: nat): string
  {
    "menuItems[" + NatToString(i) + "][name]"
  }

  function MenuPriceKey(i: nat): string
  {
    "menuItems[" + NatToString(i) + "][price]"
  }

  /** The five leading parts; both amounts in cents, the time unscaled. */
  function HeaderEntries(v: ParsedForm): seq<FormEntry>
  {
    [("restaurantName", TextValue(v.restaurantName)),
     ("country", TextValue(v.country)),
     ("city", TextValue(v.city)),
     ("deliveryPrice", TextValue(NatToString(v.deliveryPrice))),
     ("estimatedDeliveryTime", TextValue(IntToString(v.estimatedDeliveryTime)))]
  }

  /** The parts for the first n cuisines. */
  function CuisineEntries(cuisines: seq<string>, n: nat): (r: seq<FormEntry>)
    requires n <= |cuisines|
    ensures |r| == n
  {
    if n == 0 then [] else CuisineEntries(cuisines, n - 1) + [(CuisineKey(n - 1), TextValue(cuisines[n - 1]))]
  }

  /** The name and price parts for the first n menu rows; prices in cents. */
  function MenuEntries(items: seq<ParsedRow>, n: nat): (r: seq<FormEntry>)
    requires n <= |items|
    ensures |r| == 2 * n
  {
    if n == 0 then []
    else MenuEntries(items, n - 1)
         + [(MenuNameKey(n - 1), TextValue(items[n - 1].name)),
            (MenuPriceKey(n - 1), TextValue(IntToString(items[n - 1].price * 100)))]
  }

  function ImageEntries(v: ParsedForm): seq<FormEntry>
  {
    match v.imageFile
    case Some(f) => [("imageFile", FileValue(f))]
    case None => []
  }

  /** The whole part list `onSubmit` hands to `onSave`. */
  function SerializeForm(v: ParsedForm): seq<FormEntry>
  {
    HeaderEntries(v) + CuisineEntries(v.cuisines, |v.cuisines|)
    + MenuEntries(v.menuItems, |v.menuItems|) + ImageEntries(v)
  }

  /** `onSubmit`: append the parts one by one, the lists in `forEach` order. */
  method OnSubmit(v: ParsedForm) returns (sent: seq<FormEntry>)
    ensures sent == SerializeForm(v)
  {
    var formData := new FormData();
    AppendHeader(formData, v);
    var i := 0;
    while i < |v.cuisines|
      invariant 0 <= i <= |v.cuisines|
      invariant formData.entries == HeaderEntries(v) + CuisineEntries(v.cuisines, i)
    {
      var part := (CuisineKey(i), TextValue(v.cuisines[i]));
      assert CuisineEntries(v.cuisines, i + 1) == CuisineEntries(v.cuisines, i) + [part];
      formData.Append(part.0, part.1);
      i := i + 1;
    }
    var front := HeaderEntries(v) + CuisineEntries(v.cuisines, |v.cuisines|);
    var j := 0;
    while j < |v.menuItems|
      invariant 0 <= j <= |v.menuItems|
      invariant formData.entries == front + MenuEntries(v.menuItems, j)
    {
      var name := (MenuNameKey(j), TextValue(v.menuItems[j].name));
      var price := (MenuPriceKey(j), TextValue(IntToString(v.menuItems[j].price * 100)));
      assert MenuEntries(v.menuItems, j + 1) == MenuEntries(v.menuItems, j) + [name, price];
      formData.Append(name.0, name.1);
      formData.Append(price.0, price.1);
      assert formData.entries == front + (MenuEntries(v.menuItems, j) + [name, price]);
      j := j + 1;
    }
    if v.imageFile.Some? {
      formData.Append("imageFile", FileValue(v.imageFile.value));
    }
    sent := formData.entries;
  }

  /** The five single-valued fields, in the order `onSubmit` appends them. */
  method AppendHeader(formData: FormData, v: ParsedForm)
    modifies formData
    ensures formData.entries == old(formData.entries) + HeaderEntries(v)
  {
    formData.Append("restaurantName", TextValue(v.restaurantName));
    formData.Append("country", TextValue(v.country));
    formData.Append("city", TextValue(v.city));
    formData.Append("deliveryPrice", TextValue(NatToString(v.deliveryPrice)));
    formData.Append("estimatedDeliveryTime", TextValue(IntToString(v.estimatedDeliveryTime)));
  }

  /** Cuisine i is part i of the cuisine block, under its own index. */
  lemma {:induction false} CuisineEntriesAt(cuisines: seq<string>, n: nat, i: nat)
    requires n <= |cuisines| && i < n
    ensures CuisineEntries(cuisines, n)[i] == (CuisineKey(i), TextValue(cuisines[i]))
  {
    if i < n - 1 {
      CuisineEntriesAt(cuisines, n - 1, i);
    }
  }

  /** Row i is parts 2i (name) and 2i+1 (price in cents) of the menu block. */
  lemma {:induction false} MenuEntriesAt(items: seq<ParsedRow>, n: nat, i: nat)
    requires n <= |items| && i < n
    ensures MenuEntries(items, n)[2 * i] == (MenuNameKey(i), TextValue(items[i].name))
    ensures MenuEntries(items, n)[2 * i + 1] == (MenuPriceKey(i), TextValue(IntToString(items[i].price * 100)))
  {
    if i < n - 1 {
      MenuEntriesAt(items, n - 1, i);
    }
  }

  /** Part names: distinct indices give distinct keys, so each row has exactly one name and one price part. */
  lemma IndexKeysInjective(i: nat, j: nat)
    ensures CuisineKey(i) == CuisineKey(j) ==> i == j
    ensures MenuNameKey(i) == MenuNameKey(j) ==> i == j
    ensures MenuPriceKey(i) == MenuPriceKey(j) ==> i == j
  {
    NatToStringShape(i);
    NatToStringShape(j);
    if CuisineKey(i) == CuisineKey(j) {
      assert NatToString(i) == CuisineKey(i)[9..|CuisineKey(i)| - 1];
      assert NatToString(j) == CuisineKey(j)[9..|CuisineKey(j)| - 1];
      NatToStringInjective(i, j);
    }
    if MenuNameKey(i) == MenuNameKey(j) {
      assert NatToString(i) == MenuNameKey(i)[10..|MenuNameKey(i)| - 7];
      assert NatToString(j) == MenuNameKey(j)[10..|MenuNameKey(j)| - 7];
      NatToStringInjective(i, j);
    }
    if MenuPriceKey(i) == MenuPriceKey(j) {
      assert NatToString(i) == MenuPriceKey(i)[10..|MenuPriceKey(i)| - 8];
      assert NatToString(j) == MenuPriceKey(j)[10..|MenuPriceKey(j)| - 8];
      NatToStringInjective(i, j);
    }
  }

  lemma {:induction false} CuisineEntriesNames(cuisines: seq<string>, n: nat)
    requires n <= |cuisines|
    ensures forall k :: 0 <= k < n ==> |CuisineEntries(cuisines, n)[k].0| > 0 && CuisineEntries(cuisines, n)[k].0[0] == 'c'
  {
    forall k | 0 <= k < n
      ensures |CuisineEntries(cuisines, n)[k].0| > 0 && CuisineEntries(cuisines, n)[k].0[0] == 'c'
    {
      CuisineEntriesAt(cuisines, n, k);
    }
  }

  lemma {:induction false} MenuEntriesNames(items: seq<ParsedRow>, n: nat)
    requires n <= |items|
    ensures forall k :: 0 <= k < 2 * n ==> |MenuEntries(items, n)[k].0| > 0 && MenuEntries(items, n)[k].0[0] == 'm'
  {
    forall k | 0 <= k < 2 * n
      ensures |MenuEntries(items, n)[k].0| > 0 && MenuEntries(items, n)[k].0[0] == 'm'
    {
      MenuEntriesAt(items, n, k / 2);
      if k % 2 == 0 {
        assert k == 2 * (k / 2);
      } else {
        assert k == 2 * (k / 2) + 1;
      }
    }
  }

  /** The parts before the image part: header, cuisines, menu rows. */
  function TextEntries(v: ParsedForm): seq<FormEntry>
  {
    HeaderEntries(v) + CuisineEntries(v.cuisines, |v.cuisines|) + MenuEntries(v.menuItems, |v.menuItems|)
  }

  /** No text part is named like an image part (none of their names starts with 'i'). */
  lemma TextEntriesNames(v: ParsedForm)
    ensures forall k :: 0 <= k < |TextEntries(v)| ==> TextEntries(v)[k].0 != "imageFile" && TextEntries(v)[k].0 != "imageUrl"
  {
    var h, c, m := HeaderEntries(v), CuisineEntries(v.cuisines, |v.cuisines|), MenuEntries(v.menuItems, |v.menuItems|);
    CuisineEntriesNames(v.cuisines, |v.cuisines|);
    MenuEntriesNames(v.menuItems, |v.menuItems|);
    forall k | 0 <= k < |TextEntries(v)|
      ensures |TextEntries(v)[k].0| > 0 && TextEntries(v)[k].0[0] != 'i'
    {
      if k < 5 {
      } else if k < 5 + |c| {
        assert TextEntries(v)[k] == c[k - 5];
      } else {
        assert TextEntries(v)[k] == m[k - 5 - |c|];
      }
    }
  }

  /** The submitted list has one part per header field, per cuisine, two per row, and the file if any. */
  lemma SerializeLength(v: ParsedForm)
    ensures |SerializeForm(v)| == 5 + |v.cuisines| + 2 * |v.menuItems| + (if v.imageFile.Some? then 1 else 0)
  {
  }

  /** Part 5+i is cuisine i. */
  lemma SerializeCuisineAt(v: ParsedForm, i: nat)
    requires i < |v.cuisines|
    ensures SerializeForm(v)[5 + i] == (CuisineKey(i), TextValue(v.cuisines[i]))
  {
    CuisineEntriesAt(v.cuisines, |v.cuisines|, i);
    assert SerializeForm(v)[5 + i] == CuisineEntries(v.cuisines, |v.cuisines|)[i];
  }

  /** The two parts of row i: its name, then its price scaled to cents. */
  lemma SerializeMenuAt(v: ParsedForm, i: nat)
    requires i < |v.menuItems|
    ensures SerializeForm(v)[5 + |v.cuisines| + 2 * i] == (MenuNameKey(i), TextValue(v.menuItems[i].name))
    ensures SerializeForm(v)[5 + |v.cuisines| + 2 * i + 1]
         == (MenuPriceKey(i), TextValue(IntToString(v.menuItems[i].price * 100)))
  {
    var m := MenuEntries(v.menuItems, |v.menuItems|);
    MenuEntriesAt(v.menuItems, |v.menuItems|, i);
    var s := SerializeForm(v);
    assert s == HeaderEntries(v) + CuisineEntries(v.cuisines, |v.cuisines|) + m + ImageEntries(v);
    assert s[5 + |v.cuisines| + 2 * i] == m[2 * i];
    assert s[5 + |v.cuisines| + 2 * i + 1] == m[2 * i + 1];
  }

  /** A file part is sent exactly when a file was chosen, as the last part; the URL never is. */
  lemma SerializeImage(v: ParsedForm)
    ensures v.imageFile.Some? <==> exists k :: 0 <= k < |SerializeForm(v)| && SerializeForm(v)[k].0 == "imageFile"
    ensures v.imageFile.Some? ==> SerializeForm(v)[|SerializeForm(v)| - 1] == ("imageFile", FileValue(v.imageFile.value))
    ensures forall k :: 0 <= k < |SerializeForm(v)| ==> SerializeForm(v)[k].0 != "imageUrl"
  {
    var t, s := TextEntries(v), SerializeForm(v);
    assert s == t + ImageEntries(v);
    TextEntriesNames(v);
    forall k | 0 <= k < |s|
      ensures s[k].0 != "imageUrl"
      ensures s[k].0 == "imageFile" ==> v.imageFile.Some?
    {
      if k < |t| {
        assert s[k] == t[k];
      }
    }
    if v.imageFile.Some? {
      assert s[|s| - 1].0 == "imageFile";
    }
  }

  /** What the schema makes of a loaded restaurant: its cuisines, and menu prices in whole dollars. */
  lemma EditLoadParsed(r: Restaurant, v: ParsedForm, i: nat)
    requires Validate(EditLoad(Defaults(), Some(r))) == Ok(v)
    requires i < |r.menuItems|
    ensures v.cuisines == r.cuisines && |v.menuItems| == |r.menuItems|
    ensures v.menuItems[i] == ParsedRow(r.menuItems[i].name, r.menuItems[i].price / 100)
  {
    var form := EditLoad(Defaults(), Some(r));
    assert Issues(form) == [];
    RowsIssuesEmpty(form.menuItems, |form.menuItems|);
    assert v.menuItems == ParseRows(form.menuItems);
    assert form.menuItems[i] == MenuRow(r.menuItems[i].name, Whole(r.menuItems[i].price / 100));
  }

  /**
   * Loading a restaurant and resubmitting it unchanged sends each menu price
   * as whole dollars times 100: the cents of the stored price are lost.
   */
  lemma ResubmitLosesCents(r: Restaurant, v: ParsedForm, i: nat)
    requires Validate(EditLoad(Defaults(), Some(r))) == Ok(v)
    requires i < |r.menuItems|
    ensures SerializeForm(v)[5 + |r.cuisines| + 2 * i + 1]
         == (MenuPriceKey(i), TextValue(IntToString(r.menuItems[i].price / 100 * 100)))
    ensures r.menuItems[i].price / 100 * 100 == r.menuItems[i].price <==> r.menuItems[i].price % 100 == 0
  {
    EditLoadParsed(r, v, i);
    SerializeMenuAt(v, i);
  }
}
