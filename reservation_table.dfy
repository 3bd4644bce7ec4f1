/** How the page shows the fetched reservations: the address column, the
    order of the rows, the cells of a row, and the "Valid ID" line of the
    details view (frontend/script.js and frontend/script2.js). */
module ReservationTable {
  import opened JsValue
  import opened HtmlEscape

  /** `parts.filter(Boolean)`. */
  function KeepTruthy(parts: seq<JsVal>): (kept: seq<JsVal>)
    ensures |kept| <= |parts|
    ensures forall v :: v in kept <==> v in parts && Truthy(v)
  {
    if parts == [] then []
    else if Truthy(parts[0]) then [parts[0]] + KeepTruthy(parts[1..])
    else KeepTruthy(parts[1..])
  }

  /** `parts.map(p => p || "")`. */
  function OrEmpty(parts: seq<JsVal>): (r: seq<JsVal>)
    ensures |r| == |parts|
  {
    seq(|parts|, i requires 0 <= i < |parts| => Or(parts[i], Text("")))
  }

  function Texts(vs: seq<JsVal>): (r: seq<string>)
    ensures |r| == |vs|
  {
    seq(|vs|, i requires 0 <= i < |vs| => ToText(vs[i]))
  }

  /** `filter(Boolean)` keeps the order: filtering a concatenation filters
      each part. */
  lemma {:induction false} KeepTruthyConcat(a: seq<JsVal>, b: seq<JsVal>)
    ensures KeepTruthy(a + b) == KeepTruthy(a) + KeepTruthy(b)
  {
    if a == [] {
      assert a + b == b;
    } else {
      assert (a + b)[1..] == a[1..] + b;
      KeepTruthyConcat(a[1..], b);
    }
  }

  lemma TextsConcat(a: seq<JsVal>, b: seq<JsVal>)
    ensures Texts(a + b) == Texts(a) + Texts(b)
  {
  }

  /** The segment one address part contributes: its text when it is truthy,
      nothing otherwise. */
  function Segment(v: JsVal): seq<string>
  {
    if Truthy(v) then [ToText(v)] else []
  }

  /** The parts' segments, one after another in the parts' order: the
      reference for what filtering and taking texts produces. */
  function Segments(parts: seq<JsVal>): seq<string>
  {
    if parts == [] then [] else Segment(parts[0]) + Segments(parts[1..])
  }

  /** Filtering and taking texts yields each truthy part's text, in order. */
  lemma {:induction false} TextsKeepTruthy(parts: seq<JsVal>)
    ensures Texts(KeepTruthy(parts)) == Segments(parts)
  {
    if parts != [] {
      TextsKeepTruthy(parts[1..]);
      if Truthy(parts[0]) {
        TextsConcat([parts[0]], KeepTruthy(parts[1..]));
      }
    }
  }

  /** `items.join(", ")`. */
  function JoinComma(items: seq<string>): string
  {
    if items == [] then ""
    else if |items| == 1 then items[0]
    else items[0] + ", " + JoinComma(items[1..])
  }

  /** The four address properties of a record, in display order. */
  function AddressParts(r: JsRecord): (parts: seq<JsVal>)
    ensures |parts| == 4
  {
    [Prop(r, "street_address"), Prop(r, "municipality"), Prop(r, "region"), Prop(r, "country")]
  }

  /** The address as frontend/script.js builds it: each part `|| ""` first,
      then `filter(Boolean).join(", ")`. */
  function AddressScript1(r: JsRecord): (a: string)
    ensures a == AddressScript2(r)
  {
    KeepTruthyOrEmpty(AddressParts(r));
    JoinComma(Texts(KeepTruthy(OrEmpty(AddressParts(r)))))
  }

  /** The address as frontend/script2.js builds it: `filter(Boolean)` on the
      raw parts. */
  function AddressScript2(r: JsRecord): (a: string)
    ensures a == JoinComma(Segments(AddressParts(r)))
  {
    TextsKeepTruthy(AddressParts(r));
    JoinComma(Texts(KeepTruthy(AddressParts(r))))
  }

  function Address(page: Page, r: JsRecord): string
  {
    match page
    case Script1 => AddressScript1(r)
    case Script2 => AddressScript2(r)
  }

  lemma {:induction false} KeepTruthyOrEmpty(parts: seq<JsVal>)
    ensures KeepTruthy(OrEmpty(parts)) == KeepTruthy(parts)
  {
    if parts != [] {
      assert OrEmpty(parts)[1..] == OrEmpty(parts[1..]);
      KeepTruthyOrEmpty(parts[1..]);
    }
  }

  /** The segments of the address: the text of every truthy part, in order. */
  function AddressSegments(r: JsRecord): (segs: seq<string>)
    ensures forall i :: 0 <= i < |segs| ==> segs[i] != ""
    ensures |segs| <= 4
    ensures segs == Segments(AddressParts(r))
  {
    TextsKeepTruthy(AddressParts(r));
    var kept := KeepTruthy(AddressParts(r));
    assert forall i :: 0 <= i < |kept| ==> Truthy(kept[i]) by {
      forall i | 0 <= i < |kept| ensures Truthy(kept[i]) {
        assert kept[i] in kept;
      }
    }
    forall i | 0 <= i < |kept| ensures ToText(kept[i]) != "" {
      TruthyTextNonEmpty(kept[i]);
    }
    Texts(kept)
  }

  /** The displayed address joins exactly the non-empty segments, so no
      segment between two separators is empty. */
  lemma AddressIsSegments(page: Page, r: JsRecord)
    ensures Address(page, r) == JoinComma(AddressSegments(r))
  {
  }

  lemma {:induction false} JoinCommaEmpty(items: seq<string>)
    requires forall i :: 0 <= i < |items| ==> items[i] != ""
    ensures JoinComma(items) == "" <==> items == []
  {
    if |items| > 1 {
      assert items[0] != "";
    } else if |items| == 1 {
      assert items[0] != "";
    }
  }

  /** The address is empty exactly when none of the four parts is truthy. */
  lemma AddressEmptyIff(page: Page, r: JsRecord)
    ensures Address(page, r) == "" <==> forall v :: v in AddressParts(r) ==> !Truthy(v)
  {
    AddressIsSegments(page, r);
    JoinCommaEmpty(AddressSegments(r));
    var kept := KeepTruthy(AddressParts(r));
    if kept != [] {
      assert kept[0] in kept;
    }
  }

  lemma {:induction false} KeepTruthyAll(parts: seq<JsVal>)
    requires forall i :: 0 <= i < |parts| ==> Truthy(parts[i])
    ensures KeepTruthy(parts) == parts
  {
    if parts != [] {
      KeepTruthyAll(parts[1..]);
    }
  }

  lemma JoinFour(a: string, b: string, c: string, d: string)
    ensures JoinComma([a, b, c, d]) == a + ", " + b + ", " + c + ", " + d
  {
    var items := [a, b, c, d];
    assert items[1..] == [b, c, d];
    assert items[1..][1..] == [c, d];
    assert items[1..][1..][1..] == [d];
    assert JoinComma([d]) == d;
    assert JoinComma([c, d]) == c + ", " + d;
    assert JoinComma([b, c, d]) == b + ", " + (c + ", " + d);
    assert JoinComma(items) == a + ", " + (b + ", " + (c + ", " + d));
  }

  lemma TextsOfTexts(vs: seq<JsVal>, ss: seq<string>)
    requires |vs| == |ss| && forall i :: 0 <= i < |vs| ==> vs[i] == Text(ss[i])
    ensures Texts(vs) == ss
  {
  }

  /** With all four parts filled in, the address lists them in order. */
  lemma AddressAllParts(page: Page, r: JsRecord, street: string, town: string, region: string, country: string)
    requires street != "" && town != "" && region != "" && country != ""
    requires AddressParts(r) == [Text(street), Text(town), Text(region), Text(country)]
    ensures Address(page, r) == street + ", " + town + ", " + region + ", " + country
  {
    var parts := [Text(street), Text(town), Text(region), Text(country)];
    calc {
      Address(page, r);
      { AddressIsSegments(page, r); }
      JoinComma(Texts(KeepTruthy(parts)));
      { KeepTruthyAll(parts); }
      JoinComma(Texts(parts));
      { TextsOfTexts(parts, [street, town, region, country]); }
      JoinComma([street, town, region, country]);
      { JoinFour(street, town, region, country); }
      street + ", " + town + ", " + region + ", " + country;
    }
  }

  /** The first eight cells of a table row; the ninth holds the buttons. */
  datatype Row = Row(
    id: string, guest: string, address: string, resort: string,
    checkin: string, checkout: string, guests: string, payment: string)

  /** Text that cannot open or close a tag or an attribute value. */
  predicate InertCell(cell: string)
  {
    '<' !in cell && '>' !in cell && '"' !in cell
  }

  /** The row template: guest name, address, resort and payment go through
      `escapeHtml`, so those cells are inert and the address cell shows the
      address once decoded; id, dates and guests are interpolated as they
      are. */
  function RowOf(page: Page, r: JsRecord): (row: Row)
    ensures InertCell(row.guest) && InertCell(row.address)
    ensures InertCell(row.resort) && InertCell(row.payment)
    ensures Unescape(row.address) == Address(page, r)
    ensures row.id == ToText(Prop(r, "id")) && row.guests == ToText(Prop(r, "guests"))
    ensures var v := Prop(r, "checkin_date"); row.checkin == (if Truthy(v) then ToText(v) else "")
    ensures var v := Prop(r, "checkout_date"); row.checkout == (if Truthy(v) then ToText(v) else "")
  {
    var address := Text(Address(page, r));
    assert Truthy(address) || address != Number(0);
    Row(
      ToText(Prop(r, "id")),
      EscapeHtml(Prop(r, "guest_name")),
      EscapeHtml(address),
      EscapeHtml(Or(Prop(r, "resort_name"), Text(""))),
      ToText(Or(Prop(r, "checkin_date"), Text(""))),
      ToText(Or(Prop(r, "checkout_date"), Text(""))),
      ToText(Prop(r, "guests")),
      EscapeHtml(Or(Prop(r, "payment_gateway"), Text(""))))
  }

  /** `s.slice().reverse()` as a value. */
  function Reversed<T>(s: seq<T>): (r: seq<T>)
    ensures |r| == |s|
    ensures forall k :: 0 <= k < |s| ==> r[k] == s[|s| - 1 - k]
  {
    seq(|s|, k requires 0 <= k < |s| => s[|s| - 1 - k])
  }

  /** Reversing twice gives the list back. */
  lemma ReversedTwice<T>(s: seq<T>)
    ensures Reversed(Reversed(s)) == s
  {
  }

  /** The newest record, last on the server, heads the table. */
  lemma ReversedNewestFirst<T>(s: seq<T>, x: T)
    ensures Reversed(s + [x]) == [x] + Reversed(s)
  {
  }

  /** `Array.prototype.reverse` on the copy: swaps from both ends inward. */
  method ReverseInPlace(a: array<JsRecord>)
    modifies a
    ensures a[..] == Reversed(old(a[..]))
  {
    var lo, hi := 0, a.Length - 1;
    while lo < hi
      invariant 0 <= lo <= hi + 1 <= a.Length
      invariant lo + hi == a.Length - 1
      invariant forall k :: 0 <= k < lo ==> a[k] == old(a[a.Length - 1 - k]) && a[a.Length - 1 - k] == old(a[k])
      invariant forall k :: lo <= k <= hi ==> a[k] == old(a[k])
    {
      a[lo], a[hi] := a[hi], a[lo];
      lo, hi := lo + 1, hi - 1;
    }
  }

  /** `data.slice()`: a fresh array with the same records. */
  method CopyOf(data: array<JsRecord>) returns (copy: array<JsRecord>)
    ensures fresh(copy)
    ensures copy[..] == data[..]
  {
    copy := new JsRecord[data.Length];
    forall i | 0 <= i < data.Length {
      copy[i] := data[i];
    }
  }

  /** The `forEach` that appends one row per record, in the given order;
      `render` is the callback's row template. */
  method RenderRows(records: seq<JsRecord>, render: JsRecord -> Row) returns (rows: seq<Row>)
    ensures |rows| == |records|
    ensures forall k :: 0 <= k < |rows| ==> rows[k] == render(records[k])
  {
    rows := [];
    var i := 0;
    while i < |records|
      invariant 0 <= i <= |records|
      invariant |rows| == i
      invariant forall k :: 0 <= k < i ==> rows[k] == render(records[k])
    {
      rows := rows + [render(records[i])];
      i := i + 1;
    }
  }

  /** `fetchReservations`' rendering: copy the fetched list, reverse the copy
      and append one row per record. The fetched array itself is not
      changed. */
  method ShowNewestFirst(page: Page, data: array<JsRecord>) returns (rows: seq<Row>)
    ensures |rows| == data.Length
    ensures forall k :: 0 <= k < |rows| ==> rows[k] == RowOf(page, Reversed(data[..])[k])
  {
    var copy := CopyOf(data);
    ReverseInPlace(copy);
    var newest := copy[..];
    assert newest == Reversed(data[..]);
    var render := r => RowOf(page, r);
    rows := RenderRows(newest, render);
    assert forall k :: 0 <= k < |rows| ==> rows[k] == render(newest[k]);
  }

  /** `obj?.key`: undefined when `obj` is null or undefined, or has no such
      property. Primitive values carry no properties here, which is right for
      the keys the details view reads, "type" and "number". */
  function Member(v: JsVal, key: string): (r: JsVal)
    ensures !v.Object? && (key == "type" || key == "number") ==> r == Undefined
  {
    match v
    case Object(props) => Prop(props, key)
    case _ => Undefined
  }

  /** `${v || "-"}`. */
  function DashIfMissing(v: JsVal): (s: string)
    ensures s != ""
    ensures !Truthy(v) ==> s == "-"
    ensures Truthy(v) ==> s == ToText(v)
  {
    TruthyTextNonEmpty(Or(v, Text("-")));
    ToText(Or(v, Text("-")))
  }

  /** The "Valid ID" line of frontend/script2.js's details view. */
  function ValidIdDetail(r: JsRecord): (s: string)
    ensures !Prop(r, "valid_id").Object? ==> s == "- (-)"
  {
    var id := Prop(r, "valid_id");
    DashIfMissing(Member(id, "type")) + " (" + DashIfMissing(Member(id, "number")) + ")"
  }

  /** A stored `valid_id` object shows as `type (number)`, each part that is
      missing or empty replaced by "-". */
  lemma ValidIdDetailShows(r: JsRecord, kind: string, number: string)
    requires "valid_id" in r && r["valid_id"].Object?
    requires Member(r["valid_id"], "type") == Text(kind)
    requires Member(r["valid_id"], "number") == Text(number)
    ensures ValidIdDetail(r) ==
      (if kind == "" then "-" else kind) + " (" + (if number == "" then "-" else number) + ")"
  {
  }
}
