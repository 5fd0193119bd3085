/**
 * The contract creation page (frontend/contract/js/contract.js): reading numbers back from
 * the page (`parseNum`), counting rental days (`diffDays`), the payment summary that
 * `recalc` shows, and what the `contract:create:confirm` handler sends.
 *
 * Dates are milliseconds; `new Date(value).getTime()` is the parameter `toMs`. Page numbers
 * are exact reals (see JsNumbers).
 */
module ContractForm {
  import opened Common
  import opened JsNumbers
  import opened Vehicles
  import opened Surcharges

  // ---------------------------------------------------------------------------------------
  // parseNum
  // ---------------------------------------------------------------------------------------

  /** A character `replace(/[^0-9.-]/g, '')` keeps. */
  predicate NumberChar(c: char) {
    IsDigit(c) || c == '.' || c == '-'
  }

  function KeepNumberChar(): char -> bool {
    (c: char) => NumberChar(c)
  }

  /** `String(v).replace(/[^0-9.-]/g, '')`: every digit, '.' and '-', in order, and nothing else. */
  function Cleaned(s: string): (r: string)
    ensures forall c :: c in r <==> c in s && NumberChar(c)
    ensures SubsequenceOf(r, s)
  {
    Filter(s, KeepNumberChar())
  }

  /** Cleaning text that is already clean changes nothing. */
  lemma CleanedIdempotent(s: string)
    ensures Cleaned(Cleaned(s)) == Cleaned(s)
  {
    FilterTwice(s, KeepNumberChar());
  }

  function Pow10(n: nat): (p: nat)
    ensures p >= 1
  {
    if n == 0 then 1 else 10 * Pow10(n - 1)
  }

  function IsPoint(): char -> bool {
    (c: char) => c == '.'
  }

  /**
   * `Number(s)` for a string of digits and points: digits with at most one point and at
   * least one digit read as that decimal; anything else is NaN.
   */
  function Unsigned(s: string): Num {
    var k := FirstIndex(s, IsPoint());
    if k < 0 then
      if s != [] && AllDigits(s) then Fin(DigitsValue(s) as real) else NaN
    else
      var whole, fraction := s[..k], s[k + 1..];
      if |whole| + |fraction| > 0 && AllDigits(whole) && AllDigits(fraction) then
        Fin(DigitsValue(whole) as real + DigitsValue(fraction) as real / Pow10(|fraction|) as real)
      else NaN
  }

  /** `Number(s)` for a cleaned string: '' is 0, and one leading '-' negates. */
  function NumberOf(s: string): Num {
    if s == [] then Fin(0.0)
    else if s[0] == '-' then
      match Unsigned(s[1..])
      case NaN => NaN
      case Fin(x) => Fin(-x)
    else Unsigned(s)
  }

  /** The text, cleaned, as a number, with 0 in place of NaN (`isNaN(n) ? 0 : n`). */
  function ReadNumber(text: string): (n: real)
    ensures NumberOf(Cleaned(text)).NaN? ==> n == 0.0
    ensures NumberOf(Cleaned(text)).Fin? ==> n == NumberOf(Cleaned(text)).v
  {
    match NumberOf(Cleaned(text))
    case NaN => 0.0
    case Fin(x) => x
  }

  /** Empty text and the text "0" both read as 0. */
  lemma ZeroText()
    ensures ReadNumber("0") == 0.0 && ReadNumber([]) == 0.0
  {
    assert Cleaned("0") == "0";
    assert FirstIndex("0", IsPoint()) == -1;
    assert DigitsValue("0") == 0 by { assert "0"[..0] == []; }
  }

  /** parseNum: 0 for a missing element, otherwise its text read as a number. */
  function ParseNum(el: Option<string>): (n: real)
    ensures el.None? ==> n == 0.0
    ensures el.Some? ==> n == ReadNumber(el.value)
  {
    if el.None? then 0.0
    else
      var text := if el.value == [] then "0" else el.value;
      ZeroText();
      ReadNumber(text)
  }

  lemma UnsignedDigits(n: nat)
    ensures Unsigned(NatToString(n)) == Fin(n as real)
  {
    var s := NatToString(n);
    assert FirstIndex(s, IsPoint()) < 0 by {
      forall i | 0 <= i < |s| ensures !IsPoint()(s[i]) {
        assert IsDigit(s[i]);
      }
    }
    NatToStringRoundTrip(n);
  }

  /** Text made only of digits, points and minus signs is already clean. */
  lemma CleanText(s: string)
    requires forall i :: 0 <= i < |s| ==> NumberChar(s[i])
    ensures Cleaned(s) == s
  {
    forall c | c in s ensures KeepNumberChar()(c) {
      var i :| 0 <= i < |s| && s[i] == c;
    }
    FilterAll(s, KeepNumberChar());
  }

  lemma CleanDigits(s: string)
    requires AllDigits(s)
    ensures Cleaned(s) == s
  {
    CleanText(s);
  }

  /** A string of digits reads as its value. */
  lemma ReadDigits(n: nat)
    ensures ReadNumber(NatToString(n)) == n as real
  {
    var s := NatToString(n);
    CleanDigits(s);
    UnsignedDigits(n);
    assert s[0] != '-' by { assert IsDigit(s[0]); }
    assert NumberOf(s) == Unsigned(s);
  }

  /** A minus sign and a string of digits read as the negated value. */
  lemma ReadNegative(n: nat)
    ensures ReadNumber("-" + NatToString(n)) == -(n as real)
  {
    var s := NatToString(n);
    var t := "-" + s;
    CleanDigits(s);
    assert Filter("-", KeepNumberChar()) == "-";
    FilterConcat("-", s, KeepNumberChar());
    assert Cleaned(t) == t;
    UnsignedDigits(n);
    assert t[0] == '-' && t[1..] == s;
    assert NumberOf(t) == Fin(-(n as real));
  }

  /** An integer written in decimal reads as itself. */
  lemma ReadInteger(i: int)
    ensures ReadNumber(IntToString(i)) == i as real
  {
    if i < 0 {
      ReadNegative(-i);
    } else {
      ReadDigits(i);
    }
  }

  /** parseNum reads an integer written in decimal back as itself. */
  lemma ParseNumInteger(i: int)
    ensures ParseNum(Some(IntToString(i))) == i as real
  {
    ReadInteger(i);
  }

  /** Text with no digit, point or minus sign reads as 0 (`Number('')`). */
  lemma ParseNumNoDigits(s: string)
    requires forall i :: 0 <= i < |s| ==> !NumberChar(s[i])
    ensures ParseNum(Some(s)) == 0.0
  {
    if s != [] {
      forall c | c in s ensures !KeepNumberChar()(c) {
        var i :| 0 <= i < |s| && s[i] == c;
      }
      FilterNone(s, KeepNumberChar());
      assert Cleaned(s) == [];
    } else {
      ZeroText();
    }
  }

  // ---------------------------------------------------------------------------------------
  // Reading back a rendered amount (`fmt` writes it with toLocaleString)
  // ---------------------------------------------------------------------------------------

  /**
   * A string of digits with `sep` between groups of three, counted from the right: what
   * `n.toLocaleString()` writes for a whole number n, `sep` being the locale's grouping
   * separator (',' in en-US, '.' in vi-VN).
   */
  function Grouped(digits: string, sep: char): (r: string)
    ensures |r| >= |digits|
    ensures forall c :: c in r ==> c in digits || c == sep
    decreases |digits|
  {
    if |digits| <= 3 then digits
    else Grouped(digits[..|digits| - 3], sep) + [sep] + digits[|digits| - 3..]
  }

  /** `fmt(n)` for a whole number: its decimal digits, grouped. */
  function Rendered(n: nat, sep: char): string {
    Grouped(NatToString(n), sep)
  }

  function NotSep(sep: char): char -> bool {
    (c: char) => c != sep
  }

  /** Dropping the separators from a grouped digit string gives the digits back. */
  lemma {:induction false} UngroupDigits(digits: string, sep: char)
    requires AllDigits(digits) && !IsDigit(sep)
    ensures Filter(Grouped(digits, sep), NotSep(sep)) == digits
    decreases |digits|
  {
    if |digits| <= 3 {
      DigitsKept(digits, sep);
    } else {
      var head, tail := digits[..|digits| - 3], digits[|digits| - 3..];
      assert AllDigits(head) by {
        forall i | 0 <= i < |head| ensures IsDigit(head[i]) {
          assert head[i] == digits[i];
        }
      }
      assert AllDigits(tail) by {
        forall i | 0 <= i < |tail| ensures IsDigit(tail[i]) {
          assert tail[i] == digits[|digits| - 3 + i];
        }
      }
      UngroupDigits(head, sep);
      GroupStep(Grouped(head, sep), tail, sep);
      assert head + tail == digits;
    }
  }

  /** Dropping the separators before a group of digits keeps the group as it is. */
  lemma GroupStep(grouped: string, tail: string, sep: char)
    requires AllDigits(tail) && !IsDigit(sep)
    ensures Filter(grouped + [sep] + tail, NotSep(sep)) == Filter(grouped, NotSep(sep)) + tail
  {
    var p := NotSep(sep);
    var withSep := grouped + [sep];
    FilterConcat(withSep, tail, p);
    DropSeparator(grouped, sep);
    DigitsKept(tail, sep);
  }

  /** A trailing separator is dropped. */
  lemma DropSeparator(grouped: string, sep: char)
    ensures Filter(grouped + [sep], NotSep(sep)) == Filter(grouped, NotSep(sep))
  {
    FilterConcat(grouped, [sep], NotSep(sep));
    FilterNone([sep], NotSep(sep));
  }

  /** No digit is a separator, so dropping separators keeps a string of digits whole. */
  lemma DigitsKept(digits: string, sep: char)
    requires AllDigits(digits) && !IsDigit(sep)
    ensures Filter(digits, NotSep(sep)) == digits
  {
    forall c | c in digits ensures NotSep(sep)(c) {
      var i :| 0 <= i < |digits| && digits[i] == c;
      assert IsDigit(c);
    }
    FilterAll(digits, NotSep(sep));
  }

  /** With ',' grouping, parseNum reads a rendered amount back exactly. */
  lemma CommaGroupingReadsBack(n: nat)
    ensures ParseNum(Some(Rendered(n, ','))) == n as real
  {
    var s := NatToString(n);
    var g := Grouped(s, ',');
    assert Cleaned(g) == s by {
      UngroupDigits(s, ',');
      forall i | 0 <= i < |g| ensures KeepNumberChar()(g[i]) == NotSep(',')(g[i]) {
        assert g[i] in g;
        if g[i] != ',' {
          var j :| 0 <= j < |s| && s[j] == g[i];
        }
      }
      FilterSame(g, KeepNumberChar(), NotSep(','));
    }
    UnsignedDigits(n);
    assert s[0] != '-' by { assert IsDigit(s[0]); }
  }

  /** Two tests that agree on every character of `s` filter it alike. */
  lemma {:induction false} FilterSame(s: string, p: char -> bool, q: char -> bool)
    requires forall i :: 0 <= i < |s| ==> p(s[i]) == q(s[i])
    ensures Filter(s, p) == Filter(s, q)
  {
    if s != [] {
      FilterSame(s[1..], p, q);
    }
  }

  lemma RenderedWithPoints()
    ensures Rendered(1500000, '.') == "1.500.000"
    ensures Rendered(150000, '.') == "150.000"
  {
    GroupedMillion();
    GroupedThousands();
  }

  lemma DecimalUpTo1500()
    ensures NatToString(1500) == "1500"
  {
    assert NatToString(1) == "1";
    assert NatToString(15) == "15";
    assert NatToString(150) == "150";
  }

  lemma DecimalUpTo1500000()
    ensures NatToString(150000) == "150000" && NatToString(1500000) == "1500000"
  {
    DecimalUpTo1500();
    assert NatToString(15000) == "15000";
    assert NatToString(150000) == "150000";
  }

  lemma GroupedMillion()
    ensures Rendered(1500000, '.') == "1.500.000"
  {
    DecimalUpTo1500000();
    var m := "1500000";
    assert m[..4] == "1500" && m[4..] == "000";
    assert "1500"[..1] == "1" && "1500"[1..] == "500";
    assert Grouped("1500", '.') == "1.500";
  }

  lemma GroupedThousands()
    ensures Rendered(150000, '.') == "150.000"
  {
    DecimalUpTo1500000();
    var k := "150000";
    assert k[..3] == "150" && k[3..] == "000";
  }

  lemma CleanMillion()
    ensures Cleaned("1.500.000") == "1.500.000"
  {
    CleanText("1.500.000");
  }

  lemma PointAtOne()
    ensures FirstIndex("1.500.000", IsPoint()) == 1
  {
    var t := "1.500.000";
    assert t[1..] == ".500.000";
    assert FirstIndex(t[1..], IsPoint()) == 0;
  }

  lemma UnsignedMillion()
    ensures Unsigned("1.500.000") == NaN
  {
    var t := "1.500.000";
    PointAtOne();
    var fraction := t[2..];
    assert fraction == "500.000";
    assert !AllDigits(fraction) by { assert fraction[3] == '.'; }
  }

  lemma MillionReadsAsZero()
    ensures ReadNumber("1.500.000") == 0.0
  {
    CleanMillion();
    UnsignedMillion();
    assert "1.500.000"[0] != '-';
  }

  lemma CleanThousands()
    ensures Cleaned("150.000") == "150.000"
  {
    CleanText("150.000");
  }

  lemma PointAtThree()
    ensures FirstIndex("150.000", IsPoint()) == 3
  {
    var t := "150.000";
    assert t[1..] == "50.000" && t[2..] == "0.000" && t[3..] == ".000";
    assert FirstIndex(".000", IsPoint()) == 0;
    assert FirstIndex("0.000", IsPoint()) == 1;
    assert FirstIndex("50.000", IsPoint()) == 2;
  }

  lemma DigitsOneFifty()
    ensures DigitsValue("150") == 150 && DigitsValue("000") == 0
  {
    assert "150"[..2] == "15" && "15"[..1] == "1" && "1"[..0] == [];
    assert "000"[..2] == "00" && "00"[..1] == "0" && "0"[..0] == [];
  }

  lemma UnsignedThousands()
    ensures Unsigned("150.000") == Fin(150.0)
  {
    var t := "150.000";
    PointAtThree();
    DigitsOneFifty();
    assert t[..3] == "150" && t[4..] == "000";
  }

  lemma ThousandsReadAsUnits()
    ensures ReadNumber("150.000") == 150.0
  {
    CleanThousands();
    UnsignedThousands();
    assert "150.000"[0] != '-';
  }

  /**
   * As written, parseNum keeps '.', so with '.' grouping a daily price of 1,500,000 is
   * read back as 0 (`Number('1.500.000')` is NaN) and one of 150,000 as 150.
   */
  lemma PointGroupingMisread()
    ensures ParseNum(Some(Rendered(1500000, '.'))) == 0.0
    ensures ParseNum(Some(Rendered(150000, '.'))) == 150.0
  {
    RenderedWithPoints();
    MillionReadsAsZero();
    ThousandsReadAsUnits();
  }

  /**
   * Reading a rendered amount as intended: drop the locale's grouping separator first,
   * then parse.
   */
  function ParseRendered(text: Option<string>, sep: char): real {
    ParseNum(if text.None? then None else Some(Filter(text.value, NotSep(sep))))
  }

  /** Whatever the separator (a character other than a digit), the amount reads back exactly. */
  lemma RenderedReadsBack(n: nat, sep: char)
    requires !IsDigit(sep)
    ensures ParseRendered(Some(Rendered(n, sep)), sep) == n as real
  {
    var s := NatToString(n);
    UngroupDigits(s, sep);
    CleanDigits(s);
    UnsignedDigits(n);
    assert s[0] != '-' by { assert IsDigit(s[0]); }
  }

  // ---------------------------------------------------------------------------------------
  // diffDays
  // ---------------------------------------------------------------------------------------

  const MsPerDay: int := 86_400_000

  /** diffDays: 0 without both dates or when the end is not after the start, else the days begun. */
  function DiffDays(start: Option<int>, end: Option<int>): (d: nat)
    ensures start.None? || end.None? || end.value <= start.value ==> d == 0
    ensures start.Some? && end.Some? && end.value > start.value ==>
      d >= 1 && (d - 1) * MsPerDay < end.value - start.value <= d * MsPerDay
  {
    if start.None? || end.None? then 0
    else
      var ms := end.value - start.value;
      if ms <= 0 then 0 else (ms + MsPerDay - 1) / MsPerDay
  }

  /** A rental of exactly n whole days counts n days; one millisecond more counts n + 1. */
  lemma DiffDaysWholeDays(start: int, n: nat)
    requires n >= 1
    ensures DiffDays(Some(start), Some(start + n * MsPerDay)) == n
    ensures DiffDays(Some(start), Some(start + n * MsPerDay + 1)) == n + 1
  {
    var d := DiffDays(Some(start), Some(start + n * MsPerDay));
    var e := DiffDays(Some(start), Some(start + n * MsPerDay + 1));
    assert (d - 1) * MsPerDay < n * MsPerDay <= d * MsPerDay;
    assert (e - 1) * MsPerDay < n * MsPerDay + 1 <= e * MsPerDay;
  }

  // ---------------------------------------------------------------------------------------
  // recalc
  // ---------------------------------------------------------------------------------------

  /**
   * What recalc and the confirm handler read from the page: the date fields' values ("" when
   * empty), the texts of the number elements (`None` for a missing element), the notes
   * fields and the payment method.
   */
  datatype FormState = FormState(
    startValue: string,
    endValue: string,
    dailyCell: Option<string>,
    surchargeCell: Option<string>,
    deposit: Option<string>,
    discount: Option<string>,
    payNow: Option<string>,
    notes: string,
    modalNotes: string,
    payMethod: string)

  datatype Summary = Summary(
    days: nat,
    daily: real,
    vehicleSubtotal: real,
    surchargeTotal: real,
    deposit: real,
    discount: real,
    grand: real,
    payNow: real,
    remaining: real)

  /** `days > 0 ? (daily * days) : 0` */
  function Subtotal(daily: real, days: nat): (r: real)
    ensures days == 0 ==> r == 0.0
    ensures days > 0 ==> r == daily * days as real
  {
    if days > 0 then daily * days as real else 0.0
  }

  /** `fStart.value ? new Date(fStart.value) : null` */
  function DateOf(value: string, toMs: string -> int): Option<int> {
    if value == [] then None else Some(toMs(value))
  }

  /**
   * recalc: the days, the vehicle subtotal (daily price times days), the surcharge total
   * (from the surcharge list when the page has one, else read from its cell), the grand
   * total after the discount and the remaining amount after what is paid now and the
   * deposit, both floored at 0.
   */
  function Recalc(f: FormState, toMs: string -> int, surcharges: Option<seq<Item>>): (s: Summary)
    ensures s.days == DiffDays(DateOf(f.startValue, toMs), DateOf(f.endValue, toMs))
    ensures s.daily == ParseNum(f.dailyCell)
    ensures s.vehicleSubtotal == Subtotal(s.daily, s.days)
    ensures surcharges.Some? ==> s.surchargeTotal == Total(surcharges.value)
    ensures surcharges.None? ==> s.surchargeTotal == ParseNum(f.surchargeCell)
    ensures s.deposit == ParseNum(f.deposit) && s.discount == ParseNum(f.discount) && s.payNow == ParseNum(f.payNow)
    ensures s.grand >= 0.0 && s.grand >= s.vehicleSubtotal + s.surchargeTotal - s.discount
    ensures s.grand == 0.0 || s.grand == s.vehicleSubtotal + s.surchargeTotal - s.discount
    ensures s.remaining >= 0.0 && s.remaining >= s.grand - s.payNow - s.deposit
    ensures s.remaining == 0.0 || s.remaining == s.grand - s.payNow - s.deposit
  {
    var days := DiffDays(DateOf(f.startValue, toMs), DateOf(f.endValue, toMs));
    var daily := ParseNum(f.dailyCell);
    var vehicleSubtotal := Subtotal(daily, days);
    var surchargeTotal := if surcharges.Some? then Total(surcharges.value) else ParseNum(f.surchargeCell);
    var deposit := ParseNum(f.deposit);
    var discount := ParseNum(f.discount);
    var grand := AtLeastZero(vehicleSubtotal + surchargeTotal - discount);
    var payNow := ParseNum(f.payNow);
    var remaining := AtLeastZero(grand - payNow - deposit);
    Summary(days, daily, vehicleSubtotal, surchargeTotal, deposit, discount, grand, payNow, remaining)
  }

  /** Paying at least the grand total (now plus deposit) leaves nothing remaining. */
  lemma PaidInFull(f: FormState, toMs: string -> int, surcharges: Option<seq<Item>>)
    requires var s := Recalc(f, toMs, surcharges); s.payNow + s.deposit >= s.grand
    ensures Recalc(f, toMs, surcharges).remaining == 0.0
  {
  }

  /** With nothing negative paid, the remaining amount never exceeds the grand total. */
  lemma RemainingAtMostGrand(f: FormState, toMs: string -> int, surcharges: Option<seq<Item>>)
    requires var s := Recalc(f, toMs, surcharges); s.payNow >= 0.0 && s.deposit >= 0.0
    ensures var s := Recalc(f, toMs, surcharges); s.remaining <= s.grand
  {
  }

  // ---------------------------------------------------------------------------------------
  // The contract:create:confirm handler
  // ---------------------------------------------------------------------------------------

  datatype CarLine = CarLine(carId: Option<int>, dailyRate: real, amount: real)
  datatype SurchargeLine = SurchargeLine(surchargeId: int, unitPrice: real, quantity: real)

  datatype Payload = Payload(
    customerId: real,
    startDate: Option<string>,
    endDate: Option<string>,
    notes: Option<string>,
    cars: seq<CarLine>,
    surcharges: seq<SurchargeLine>)

  /** The POST to /contracts/{id}/payments that follows a created contract. */
  datatype PaymentRequest = PaymentRequest(contractId: int, amount: real, payMethod: string)

  datatype Outcome =
    | NoCustomer
    | NoVehicle
    | Sent(payload: Payload, payment: Option<PaymentRequest>)

  /** `value || null` for a field value. */
  function OrNull(value: string): (r: Option<string>)
    ensures r.None? <==> value == []
    ensures r.Some? ==> r.value == value
  {
    if value == [] then None else Some(value)
  }

  /** `days * rate`: the Amount of the car line. */
  function LineAmount(days: nat, rate: real): (r: real)
    ensures days == 0 ==> r == 0.0
    ensures days > 0 ==> r == days as real * rate
  {
    days as real * rate
  }

  /** `{ SurchargeID: s.id || 0, UnitPrice: s.unitPrice || s.amount || 0, Quantity: s.quantity || 1 }` */
  function SentLine(it: Item): SurchargeLine {
    SurchargeLine(it.id, if it.unitPrice != 0.0 then it.unitPrice else Or(it.amount, 0.0), Or(it.quantity, 1.0))
  }

  function SentLines(items: seq<Item>): (r: seq<SurchargeLine>)
    ensures |r| == |items|
    ensures forall i :: 0 <= i < |items| ==> r[i] == SentLine(items[i])
  {
    seq(|items|, i requires 0 <= i < |items| => SentLine(items[i]))
  }

  /** The sum of unit price times quantity over the lines sent. */
  function LinesTotal(lines: seq<SurchargeLine>): real {
    if lines == [] then 0.0 else lines[0].unitPrice * lines[0].quantity + LinesTotal(lines[1..])
  }

  /** A well-formed item is sent with its own unit price and a quantity of at least 1. */
  lemma SentLineKeepsPrice(it: Item)
    requires WellFormed(it)
    ensures SentLine(it).unitPrice == it.unitPrice && SentLine(it).quantity >= 1.0
    ensures it.quantity.Fin? ==> SentLine(it).quantity == it.quantity.v
  {
  }

  /**
   * When every quantity is a number, the surcharge lines sent add up to the surcharge
   * total the page shows.
   */
  lemma {:induction false} SentLinesAddUp(items: seq<Item>)
    requires AllWellFormed(items)
    requires forall i :: 0 <= i < |items| ==> items[i].quantity.Fin?
    ensures LinesTotal(SentLines(items)) == Total(items)
  {
    if items != [] {
      SentLinesAddUp(items[1..]);
      assert SentLines(items)[1..] == SentLines(items[1..]);
      var it := items[0];
      assert WellFormed(it);
      assert SentLine(it).unitPrice * SentLine(it).quantity == Or(it.amount, 0.0) by {
        if it.unitPrice == 0.0 {
          assert it.amount == Fin(0.0 * it.quantity.v);
        }
      }
    }
  }

  /**
   * The confirm handler. Without a customer (none selected, or a value that reads as 0 or
   * NaN) it stops first, then without a selected vehicle. Otherwise it sends the payload:
   * the dates and notes as given, one car line for the selected vehicle priced days times
   * its rate, and the surcharge list. A payment of "pay now" plus the deposit follows only
   * when the create call returned an id (`created`) and one of the two is positive.
   */
  function Confirm(f: FormState, toMs: string -> int, surcharges: Option<seq<Item>>,
                   customer: Option<Num>, selected: Option<Vehicle>, created: Option<int>): (o: Outcome)
    ensures customer.None? || !Truthy(customer.value) <==> o == NoCustomer
    ensures customer.Some? && Truthy(customer.value) && selected.None? <==> o == NoVehicle
    ensures o.Sent? ==>
      var s := Recalc(f, toMs, surcharges);
      var v := selected.value;
      o.payload.customerId == customer.value.v
      && o.payload.startDate == OrNull(f.startValue) && o.payload.endDate == OrNull(f.endValue)
      && o.payload.notes == (if f.notes != [] then Some(f.notes) else OrNull(f.modalNotes))
      && o.payload.cars == [CarLine(Key(v), Rate(v), LineAmount(s.days, Rate(v)))]
      && o.payload.surcharges == SentLines(surcharges.GetOr([]))
      && (o.payment.Some? <==> created.Some? && (s.payNow > 0.0 || s.deposit > 0.0))
      && (o.payment.Some? ==>
            o.payment.value.contractId == created.value
            && o.payment.value.amount == s.payNow + s.deposit
            && o.payment.value.payMethod == (if f.payMethod == [] then "Cash" else f.payMethod))
  {
    var s := Recalc(f, toMs, surcharges);
    if customer.None? || !Truthy(customer.value) then NoCustomer
    else if selected.None? then NoVehicle
    else
      var v := selected.value;
      var notes := if f.notes != [] then Some(f.notes) else OrNull(f.modalNotes);
      var payload := Payload(
        customer.value.v, OrNull(f.startValue), OrNull(f.endValue), notes,
        [CarLine(Key(v), Rate(v), LineAmount(s.days, Rate(v)))],
        SentLines(surcharges.GetOr([])));
      var payMethod := if f.payMethod == [] then "Cash" else f.payMethod;
      var payment :=
        if created.Some? && (s.payNow > 0.0 || s.deposit > 0.0) then
          Some(PaymentRequest(created.value, s.payNow + s.deposit, payMethod))
        else None;
      Sent(payload, payment)
  }

  /**
   * When the page shows the selected vehicle's rate as its daily price, the car line sent
   * carries the vehicle subtotal the summary shows.
   */
  lemma CarLineMatchesSubtotal(f: FormState, toMs: string -> int, surcharges: Option<seq<Item>>,
                               customer: Option<Num>, v: Vehicle, created: Option<int>)
    requires customer.Some? && Truthy(customer.value)
    requires ParseNum(f.dailyCell) == Rate(v)
    ensures var o := Confirm(f, toMs, surcharges, customer, Some(v), created);
      o.Sent? && o.payload.cars[0].amount == Recalc(f, toMs, surcharges).vehicleSubtotal
  {
    var s := Recalc(f, toMs, surcharges);
    assert LineAmount(s.days, Rate(v)) == Subtotal(s.daily, s.days);
  }
}
