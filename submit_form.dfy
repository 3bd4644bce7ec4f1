/** The checks the reservation form's submit handler makes before it sends
    anything, and the payload it sends (frontend/script.js and
    frontend/script2.js, whose handlers differ only in one alert text). */
module SubmitForm {
  import opened Maybe
  import opened JsValue

  /** JavaScript's WhiteSpace and LineTerminator characters, which `trim` and
      `parseInt` skip. */
  predicate IsJsSpace(c: char)
  {
    || ('\t' <= c <= '\r')
    || c == ' ' || c == '\U{00A0}' || c == '\U{1680}'
    || ('\U{2000}' <= c <= '\U{200A}')
    || c == '\U{2028}' || c == '\U{2029}' || c == '\U{202F}' || c == '\U{205F}' || c == '\U{3000}' || c == '\U{FEFF}'
  }

  predicate AllSpace(s: string)
  {
    forall i :: 0 <= i < |s| ==> IsJsSpace(s[i])
  }

  /** Neither end of `s` is white space. */
  predicate Trimmed(s: string)
  {
    s == [] || (!IsJsSpace(s[0]) && !IsJsSpace(s[|s| - 1]))
  }

  /** `s.trimStart()`. */
  function TrimStart(s: string): (r: string)
    ensures r == [] || !IsJsSpace(r[0])
  {
    if s != [] && IsJsSpace(s[0]) then TrimStart(s[1..]) else s
  }

  /** `s.trimEnd()`. */
  function TrimEnd(s: string): (r: string)
    ensures r == [] || !IsJsSpace(r[|r| - 1])
  {
    if s != [] && IsJsSpace(s[|s| - 1]) then TrimEnd(s[..|s| - 1]) else s
  }

  /** `s.trim()`. */
  function Trim(s: string): (r: string)
    ensures Trimmed(r)
  {
    TrimEndKeepsStart(TrimStart(s));
    TrimEnd(TrimStart(s))
  }

  lemma {:induction false} TrimStartPadded(pre: string, rest: string)
    requires AllSpace(pre) && (rest == [] || !IsJsSpace(rest[0]))
    ensures TrimStart(pre + rest) == rest
  {
    if pre == [] {
      assert pre + rest == rest;
    } else {
      assert (pre + rest)[1..] == pre[1..] + rest;
      TrimStartPadded(pre[1..], rest);
    }
  }

  lemma {:induction false} TrimEndPadded(rest: string, post: string)
    requires AllSpace(post) && (rest == [] || !IsJsSpace(rest[|rest| - 1]))
    ensures TrimEnd(rest + post) == rest
  {
    if post == [] {
      assert rest + post == rest;
    } else {
      var all := rest + post;
      assert all[..|all| - 1] == rest + post[..|post| - 1];
      TrimEndPadded(rest, post[..|post| - 1]);
    }
  }

  lemma {:induction false} TrimEndKeepsStart(s: string)
    requires s == [] || !IsJsSpace(s[0])
    ensures TrimEnd(s) == [] || !IsJsSpace(TrimEnd(s)[0])
    ensures TrimEnd(s) <= s
  {
    if s != [] && IsJsSpace(s[|s| - 1]) {
      TrimEndKeepsStart(s[..|s| - 1]);
    }
  }

  /** `trim` removes exactly the white space around the text: surrounded by any
      white space, a text with no white space at either end trims to itself. */
  lemma TrimPadded(pre: string, core: string, post: string)
    requires AllSpace(pre) && AllSpace(post) && Trimmed(core)
    ensures Trim(pre + core + post) == core
  {
    assert pre + core + post == pre + (core + post);
    if core == [] {
      assert core + post == post;
      TrimStartPadded(pre, []);
      assert pre == pre + [];
      TrimStartAllSpace(pre + post);
    } else {
      TrimStartPadded(pre, core + post);
      TrimEndPadded(core, post);
    }
  }

  lemma {:induction false} TrimStartAllSpace(s: string)
    requires AllSpace(s)
    ensures TrimStart(s) == []
  {
    if s != [] {
      TrimStartAllSpace(s[1..]);
    }
  }

  /** The trimmed text has no white space at either end, so trimming twice is
      trimming once. */
  lemma TrimIdempotent(s: string)
    ensures Trimmed(Trim(s))
    ensures Trim(Trim(s)) == Trim(s)
  {
    TrimEndKeepsStart(TrimStart(s));
    var t := Trim(s);
    TrimPadded([], t, []);
    assert [] + t + [] == t;
  }

  /** One element of a regular expression without repetition operators. */
  datatype Atom = Literal(c: char) | AnyDigit

  predicate AtomMatches(a: Atom, c: char)
  {
    match a
    case Literal(x) => c == x
    case AnyDigit => IsDigit(c)
  }

  /** `RegExp.test` for `^p$` where `p` is a sequence of atoms: the whole text
      matches the atoms one character each. */
  predicate FullMatch(p: seq<Atom>, s: string)
  {
    |p| == |s| && forall i :: 0 <= i < |p| ==> AtomMatches(p[i], s[i])
  }

  /** `/^09\d{9}$/`, with `\d{9}` written out. */
  const PhonePattern: seq<Atom> :=
    [Literal('0'), Literal('9'), AnyDigit, AnyDigit, AnyDigit, AnyDigit, AnyDigit, AnyDigit, AnyDigit, AnyDigit, AnyDigit]

  /** The handler's phone check: `/^09\d{9}$/.test(form.phone.value.trim())`. */
  predicate PhoneAccepted(value: string)
    ensures PhoneAccepted(value) ==> |Trim(value)| == 11 && AllDigits(Trim(value))
  {
    FullMatch(PhonePattern, Trim(value))
  }

  /** The phone check accepts exactly the values that trim to "09" followed by
      nine ASCII digits. */
  lemma PhoneAcceptedIff(value: string)
    ensures var t := Trim(value);
      PhoneAccepted(value) <==>
        |t| == 11 && t[0] == '0' && t[1] == '9' && forall i :: 2 <= i < 11 ==> IsDigit(t[i])
  {
    assert |PhonePattern| == 11;
    assert PhonePattern[0] == Literal('0') && PhonePattern[1] == Literal('9');
    assert forall i :: 2 <= i < 11 ==> PhonePattern[i] == AnyDigit;
  }

  /** Text with no white space at either end is its own trim. */
  lemma TrimOfTrimmed(s: string)
    requires Trimmed(s)
    ensures Trim(s) == s
  {
    TrimPadded([], s, []);
    assert [] + s + [] == s;
  }

  /** "09" and nine digits pass, whatever white space surrounds them. */
  lemma AcceptsPaddedNumber(pre: string, digits: string, post: string)
    requires AllSpace(pre) && AllSpace(post)
    requires |digits| == 9 && AllDigits(digits)
    ensures PhoneAccepted(pre + "09" + digits + post)
  {
    var core := "09" + digits;
    var value := pre + "09" + digits + post;
    assert value == pre + core + post;
    assert IsDigit(core[|core| - 1]);
    TrimPadded(pre, core, post);
    assert Trim(value) == core;
    assert |core| == 11 && core[0] == '0' && core[1] == '9';
    forall i | 0 <= i < 11 ensures AtomMatches(PhonePattern[i], core[i]) {
      if i >= 2 {
        assert core[i] == digits[i - 2];
      }
    }
  }

  /** A trimmed value of any other length than 11 is rejected. */
  lemma RejectsWrongLength(value: string)
    requires Trimmed(value) && |value| != 11
    ensures !PhoneAccepted(value)
  {
    TrimOfTrimmed(value);
    PhoneAcceptedIff(value);
  }

  /** A trimmed value not starting with "09" is rejected. */
  lemma RejectsWithoutPrefix(value: string)
    requires Trimmed(value) && |value| >= 2 && value[..2] != "09"
    ensures !PhoneAccepted(value)
  {
    TrimOfTrimmed(value);
    PhoneAcceptedIff(value);
    assert value[..2] == [value[0], value[1]];
  }

  /** A trimmed value with anything but a digit after the "09" is rejected. */
  lemma RejectsNonDigit(value: string, i: nat)
    requires Trimmed(value) && 2 <= i < |value| && !IsDigit(value[i])
    ensures !PhoneAccepted(value)
  {
    TrimOfTrimmed(value);
    PhoneAcceptedIff(value);
  }

  /** The longest run of decimal digits at the start of `s`. */
  function DigitPrefix(s: string): (d: string)
    ensures d <= s && AllDigits(d)
    ensures |d| == |s| || !IsDigit(s[|d|])
  {
    if s != [] && IsDigit(s[0]) then [s[0]] + DigitPrefix(s[1..]) else []
  }

  lemma {:induction false} DigitPrefixOf(d: string, rest: string)
    requires AllDigits(d) && (rest == [] || !IsDigit(rest[0]))
    ensures DigitPrefix(d + rest) == d
  {
    if d != [] {
      assert (d + rest)[1..] == d[1..] + rest;
      DigitPrefixOf(d[1..], rest);
    } else {
      assert d + rest == rest;
    }
  }

  /** `parseInt(s, 10)`: leading white space is skipped, then an optional sign
      and the longest run of digits is read; with no digit the result is NaN,
      here `None`. */
  function JsParseInt(s: string): (r: Option<int>)
    ensures var t := TrimStart(s);
      r.Some? <==> t != [] && (IsDigit(t[0]) || ((t[0] == '-' || t[0] == '+') && |t| >= 2 && IsDigit(t[1])))
    ensures r.Some? && r.value < 0 ==> TrimStart(s) != [] && TrimStart(s)[0] == '-'
  {
    var t := TrimStart(s);
    var negative := t != [] && t[0] == '-';
    var body := if t != [] && (t[0] == '-' || t[0] == '+') then t[1..] else t;
    var digits := DigitPrefix(body);
    if digits == [] then None
    else
      var v: int := DigitsValue(digits);
      Some(if negative then -v else v)
  }

  lemma TrimStartNoSpace(s: string)
    requires s != [] && !IsJsSpace(s[0])
    ensures TrimStart(s) == s
  {
  }

  /** Digits followed by something that is not a digit read as their value,
      negated after a minus sign. */
  lemma ParseDigits(t: string, negative: bool, d: string, rest: string)
    requires d != [] && AllDigits(d) && (rest == [] || !IsDigit(rest[0]))
    requires if negative then t != [] && t[0] == '-' && t[1..] == d + rest else t == d + rest
    ensures JsParseInt(t) == Some(if negative then -(DigitsValue(d) as int) else DigitsValue(d))
  {
    assert t != [] && !IsJsSpace(t[0]) by {
      if !negative {
        assert t[0] == d[0];
      }
    }
    TrimStartNoSpace(t);
    DigitPrefixOf(d, rest);
  }

  /** `parseInt` reads back what `String(n)` writes, whatever follows the
      number as long as it does not continue it. */
  lemma ParseIntRoundTrip(n: int, rest: string)
    requires rest == [] || !IsDigit(rest[0])
    ensures JsParseInt(IntToDecimal(n) + rest) == Some(n)
  {
    var t := IntToDecimal(n) + rest;
    if n < 0 {
      var d := NatToDecimal(-n);
      assert t[1..] == d + rest by {
        assert t == ['-'] + (d + rest);
      }
      ParseDigits(t, true, d, rest);
      DecimalRoundTrip(-n);
    } else {
      var d := NatToDecimal(n);
      ParseDigits(t, false, d, rest);
      DecimalRoundTrip(n);
    }
  }

  /** Leading white space does not change what `parseInt` reads. */
  lemma ParseIntSkipsSpace(pre: string, s: string)
    requires AllSpace(pre) && (s == [] || !IsJsSpace(s[0]))
    ensures JsParseInt(pre + s) == JsParseInt(s)
  {
    TrimStartPadded(pre, s);
    TrimStartPadded([], s);
    assert [] + s == s;
  }

  /** A field that is empty or only white space reads as NaN. */
  lemma ParseIntBlank(s: string)
    requires AllSpace(s)
    ensures JsParseInt(s) == None
  {
    TrimStartAllSpace(s);
  }

  /** Text starting with anything but a digit or a sign reads as NaN. */
  lemma ParseIntNonNumeric(s: string)
    requires s != [] && !IsJsSpace(s[0]) && !IsDigit(s[0]) && s[0] != '-' && s[0] != '+'
    ensures JsParseInt(s) == None
  {
    TrimStartNoSpace(s);
  }

  /** The payload's `guests`: `parseInt(value, 10) || 1`. NaN and 0 are falsy
      and become 1; every other number, negative ones included, is kept. */
  function GuestsOrDefault(value: string): (g: int)
    ensures g != 0
    ensures JsParseInt(value).None? ==> g == 1
    ensures JsParseInt(value).Some? && JsParseInt(value).value != 0 ==> g == JsParseInt(value).value
    ensures JsParseInt(value) == Some(0) ==> g == 1
  {
    match JsParseInt(value)
    case None => 1
    case Some(n) => if n == 0 then 1 else n
  }

  /** A number typed into the guests field is sent as it is, except 0, which
      becomes 1. */
  lemma GuestsTypedNumber(n: int)
    ensures GuestsOrDefault(IntToDecimal(n)) == if n == 0 then 1 else n
  {
    ParseIntRoundTrip(n, []);
    assert IntToDecimal(n) + [] == IntToDecimal(n);
  }

  /** An empty guests field sends 1. */
  lemma GuestsEmptyField()
    ensures GuestsOrDefault("") == 1
  {
  }

  /** A calendar day, as an `<input type="date">` value denotes it. */
  datatype Date = Date(year: int, month: int, day: int)

  predicate LeapYear(y: int)
  {
    y % 4 == 0 && (y % 100 != 0 || y % 400 == 0)
  }

  function DaysInMonth(y: int, m: int): (n: int)
    requires 1 <= m <= 12
    ensures 28 <= n <= 31
  {
    if m == 2 then (if LeapYear(y) then 29 else 28)
    else if m == 4 || m == 6 || m == 9 || m == 11 then 30
    else 31
  }

  predicate ValidDate(d: Date)
  {
    0 <= d.year <= 9999 && 1 <= d.month <= 12 && 1 <= d.day <= DaysInMonth(d.year, d.month)
  }

  /** `a` is an earlier day than `b`: the order of the days' time values. */
  predicate Before(a: Date, b: Date)
  {
    a.year < b.year
    || (a.year == b.year && a.month < b.month)
    || (a.year == b.year && a.month == b.month && a.day < b.day)
  }

  /** Of two days, exactly one is earlier unless they are the same day. */
  lemma BeforeTrichotomy(a: Date, b: Date)
    ensures a == b <==> !Before(a, b) && !Before(b, a)
    ensures !(Before(a, b) && Before(b, a))
  {
  }

  /** `n` written with exactly `width` digits, zeros in front. */
  function Padded(n: nat, width: nat): (s: string)
    ensures |s| == width && AllDigits(s)
  {
    if width == 0 then [] else Padded(n / 10, width - 1) + [DigitChar(n % 10)]
  }

  /** A number that fits in `width` digits reads back from its padded text. */
  lemma {:induction false} PaddedValue(n: nat, width: nat)
    requires n < Power10(width)
    ensures DigitsValue(Padded(n, width)) == n
  {
    if width > 0 {
      var s := Padded(n, width);
      assert s[..|s| - 1] == Padded(n / 10, width - 1);
      PaddedValue(n / 10, width - 1);
    }
  }

  function Power10(k: nat): (p: nat)
    ensures p >= 1
  {
    if k == 0 then 1 else 10 * Power10(k - 1)
  }

  /** The `YYYY-MM-DD` text a date input holds for a day. */
  function IsoText(d: Date): (s: string)
    requires ValidDate(d)
    ensures |s| == 10
  {
    Padded(d.year, 4) + "-" + Padded(d.month, 2) + "-" + Padded(d.day, 2)
  }

  /** `new Date(s)` for the date-only ISO form: `None` is an Invalid Date. */
  function ParseIsoDate(s: string): (r: Option<Date>)
    ensures r.Some? ==> ValidDate(r.value)
  {
    if |s| == 10 && s[4] == '-' && s[7] == '-'
       && AllDigits(s[..4]) && AllDigits(s[5..7]) && AllDigits(s[8..])
    then
      var d := Date(DigitsValue(s[..4]), DigitsValue(s[5..7]), DigitsValue(s[8..]));
      if ValidDate(d) then Some(d) else None
    else None
  }

  /** Reading a date input's text gives back the day it was written from. */
  lemma IsoRoundTrip(d: Date)
    requires ValidDate(d)
    ensures ParseIsoDate(IsoText(d)) == Some(d)
  {
    var y := Padded(d.year, 4);
    var m := Padded(d.month, 2);
    var dd := Padded(d.day, 2);
    var s := IsoText(d);
    assert s[..4] == y && s[5..7] == m && s[8..] == dd;
    PaddedValue(d.year, 4);
    PaddedValue(d.month, 2);
    PaddedValue(d.day, 2);
    assert Power10(2) == 100 && Power10(4) == 10000;
  }

  /** The handler's date rule: when both fields are filled in, `new
      Date(checkout) <= new Date(checkin)` blocks the submission. An Invalid
      Date compares false with anything, so it never blocks. */
  predicate DatesClash(checkin: string, checkout: string)
    ensures DatesClash(checkin, checkout) ==> ParseIsoDate(checkin).Some? && ParseIsoDate(checkout).Some?
    ensures checkin == checkout ==> (DatesClash(checkin, checkout) <==> ParseIsoDate(checkin).Some?)
  {
    checkin != "" && checkout != ""
    && match (ParseIsoDate(checkin), ParseIsoDate(checkout))
       case (Some(i), Some(o)) => !Before(i, o)
       case _ => false
  }

  /** For two filled-in days, the submission goes ahead exactly when checkout
      is a later day than check-in; an empty field skips the check. */
  lemma DatesClashIff(checkin: Date, checkout: Date)
    requires ValidDate(checkin) && ValidDate(checkout)
    ensures DatesClash(IsoText(checkin), IsoText(checkout)) <==> !Before(checkin, checkout)
    ensures DatesClash(IsoText(checkin), IsoText(checkin))
    ensures !DatesClash("", IsoText(checkout)) && !DatesClash(IsoText(checkin), "")
  {
    IsoRoundTrip(checkin);
    IsoRoundTrip(checkout);
  }

  /** The alerts that stop a submission. */
  datatype Alert = BadPhone(page: Page) | CheckoutNotLater

  /** The alert's text; the two copies of the handler differ only in the
      phone alert. */
  function AlertText(a: Alert): string
  {
    match a
    case BadPhone(Script1) => "Invalid phone number. Use 11-digit PH mobile (e.g., 09171234567)"
    case BadPhone(Script2) => "Phone format invalid. Use 11-digit PH mobile (e.g., 09171234567)"
    case CheckoutNotLater => "Checkout date must be later than check-in date."
  }

  /** The values of the reservation form's fields. */
  datatype Form = Form(
    resortName: string, guestName: string, streetAddress: string,
    municipality: string, region: string, country: string,
    validIdType: string, validIdNumber: string, email: string, phone: string,
    checkinDate: string, checkoutDate: string, guests: string,
    paymentGateway: string)

  /** What pressing submit does: an alert that stops it, or the JSON body sent
      to the backend. */
  datatype Submission = Blocked(alert: Alert) | Send(payload: JsRecord)

  const PayloadKeys: set<string> := {
    "resort_name", "guest_name", "street_address", "municipality", "region",
    "country", "valid_id_type", "valid_id_number", "email", "phone",
    "checkin_date", "checkout_date", "guests", "payment_gateway"}

  /** The value the payload object literal gives `key`; every field is sent
      as typed, untrimmed, except `guests`. */
  function PayloadValue(f: Form, key: string): JsVal
  {
    match key
    case "resort_name" => Text(f.resortName)
    case "guest_name" => Text(f.guestName)
    case "street_address" => Text(f.streetAddress)
    case "municipality" => Text(f.municipality)
    case "region" => Text(f.region)
    case "country" => Text(f.country)
    case "valid_id_type" => Text(f.validIdType)
    case "valid_id_number" => Text(f.validIdNumber)
    case "email" => Text(f.email)
    case "phone" => Text(f.phone)
    case "checkin_date" => Text(f.checkinDate)
    case "checkout_date" => Text(f.checkoutDate)
    case "guests" => Number(GuestsOrDefault(f.guests))
    case _ => Text(f.paymentGateway)
  }

  function Payload(f: Form): (p: JsRecord)
    ensures p.Keys == PayloadKeys
    ensures forall k :: k in p ==> p[k] == PayloadValue(f, k)
    ensures p["phone"] == Text(f.phone)
    ensures p["guests"] == Number(GuestsOrDefault(f.guests))
  {
    map k | k in PayloadKeys :: PayloadValue(f, k)
  }

  /** The submit handler up to the request: the phone check, then the date
      check, then the payload. */
  function Submit(page: Page, f: Form): (r: Submission)
    ensures !PhoneAccepted(f.phone) <==> r == Blocked(BadPhone(page))
    ensures PhoneAccepted(f.phone) && DatesClash(f.checkinDate, f.checkoutDate) <==> r == Blocked(CheckoutNotLater)
    ensures r.Send? <==> PhoneAccepted(f.phone) && !DatesClash(f.checkinDate, f.checkoutDate)
    ensures r.Send? ==>
      (r.payload.Keys == PayloadKeys
       && r.payload["phone"] == Text(f.phone)
       && r.payload["guests"] == Number(GuestsOrDefault(f.guests)))
  {
    if !PhoneAccepted(f.phone) then Blocked(BadPhone(page))
    else if DatesClash(f.checkinDate, f.checkoutDate) then Blocked(CheckoutNotLater)
    else Send(Payload(f))
  }

  /** Whatever is sent carries a phone that trims to "09" and nine digits, a
      non-zero guest count, and, when both dates are days, a checkout after the
      check-in. */
  lemma SentPayloadIsChecked(page: Page, f: Form)
    requires Submit(page, f).Send?
    ensures var t := Trim(Submit(page, f).payload["phone"].s);
      |t| == 11 && t[..2] == "09" && AllDigits(t[2..])
    ensures Submit(page, f).payload["guests"].n != 0
    ensures ParseIsoDate(f.checkinDate).Some? && ParseIsoDate(f.checkoutDate).Some? ==>
      Before(ParseIsoDate(f.checkinDate).value, ParseIsoDate(f.checkoutDate).value)
  {
    var t := Trim(f.phone);
    PhoneAcceptedIff(f.phone);
    assert forall i :: 0 <= i < |t[2..]| ==> t[2..][i] == t[i + 2];
  }

  /** The two pages block and send the same submissions. */
  lemma PagesAgree(f: Form)
    ensures Submit(Script1, f).Send? <==> Submit(Script2, f).Send?
    ensures Submit(Script1, f).Send? ==> Submit(Script1, f) == Submit(Script2, f)
  {
  }
}
