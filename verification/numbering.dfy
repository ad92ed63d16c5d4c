/** Human-readable document numbers: `BILL-YYMM-NNNN` for bills
    (controllers/billController.js), `WO-YYMM-NNNN` for work orders
    (controllers/workOrderController.js) and `TICK-YYYYMMDD-NNNN` for
    support tickets (models/HelpSupport.js). Each is a prefix, a date stamp
    of digits, a dash and a sequence number zero-padded to four digits, the
    sequence being one more than a count of existing documents. */
module Numbering {
  import opened Common
  import opened Text

  /** A calendar date as the clock reports it (month 1..12). */
  datatype Date = Date(year: nat, month: nat, day: nat)

  predicate ValidDate(d: Date) {
    1 <= d.month <= 12 && 1 <= d.day <= 31
  }

  const BillPrefix: string := "BILL-"
  const WorkOrderPrefix: string := "WO-"
  const TicketPrefix: string := "TICK-"

  /** `getFullYear().toString().slice(-2)`. */
  function TwoDigitYear(year: nat): (r: string)
    ensures AllDigits(r)
    ensures |r| == if year >= 10 then 2 else 1
  {
    LastTwoAllDigits(DecimalString(year));
    LastTwo(DecimalString(year))
  }

  /** The year part reads as the year's last two decimal places. */
  lemma TwoDigitYearValue(year: nat)
    ensures ParseDecimal(TwoDigitYear(year)) == year % 100
  {
    LastTwoDigitsValue(year);
  }

  /** `n.toString().padStart(2, '0')`, as used for months and days. */
  function TwoDigits(n: nat): (r: string)
    ensures AllDigits(r) && |r| >= 2
    ensures n < 100 ==> |r| == 2
  {
    PaddedDecimalParses(n, 2);
    assert n < 100 ==> |DecimalString(n)| <= 2 by {
      if n < 100 {
        DecimalStringLength(n, 2);
      }
    }
    PadStart(DecimalString(n), 2, '0')
  }

  /** A padded month or day reads as the number. */
  lemma TwoDigitsValue(n: nat)
    ensures ParseDecimal(TwoDigits(n)) == n
  {
    PaddedDecimalParses(n, 2);
  }

  /** Two-digit year followed by the two-digit month (`getMonth() + 1`). */
  function YearMonthStamp(d: Date): (r: string)
    ensures AllDigits(r) && |r| >= 3
    ensures d.year >= 10 && d.month < 100 ==> |r| == 4
  {
    AllDigitsJoin(TwoDigitYear(d.year), TwoDigits(d.month));
    TwoDigitYear(d.year) + TwoDigits(d.month)
  }

  /** The year-month stamp of a date reads as `YYMM`: the year's last two
      places, then the month. */
  lemma YearMonthStampValue(d: Date)
    requires ValidDate(d)
    ensures ParseDecimal(YearMonthStamp(d)) == (d.year % 100) * 100 + d.month
    ensures d.year >= 10 ==> |YearMonthStamp(d)| == 4
  {
    ParseDecimalJoinTwo(TwoDigitYear(d.year), TwoDigits(d.month));
    TwoDigitYearValue(d.year);
    TwoDigitsValue(d.month);
  }

  function FourDigitYear(year: nat): (r: string)
    ensures AllDigits(r) && |r| >= 4
  {
    PaddedDecimalParses(year, 4);
    PadStart(DecimalString(year), 4, '0')
  }

  /** The `YYYYMMDD` of an ISO date with its dashes removed. */
  function IsoDayStamp(d: Date): (r: string)
    ensures AllDigits(r) && |r| >= 8
  {
    AllDigitsJoin(FourDigitYear(d.year), TwoDigits(d.month));
    AllDigitsJoin(FourDigitYear(d.year) + TwoDigits(d.month), TwoDigits(d.day));
    FourDigitYear(d.year) + TwoDigits(d.month) + TwoDigits(d.day)
  }

  /** A numeral followed by two two-digit numerals. */
  lemma StampValue(a: string, b: string, c: string)
    requires AllDigits(a) && AllDigits(b) && AllDigits(c) && |b| == 2 && |c| == 2
    ensures AllDigits(a + b + c)
    ensures ParseDecimal(a + b + c) == ParseDecimal(a) * 10000 + ParseDecimal(b) * 100 + ParseDecimal(c)
  {
    ParseDecimalJoinTwo(a, b);
    ParseDecimalJoinTwo(a + b, c);
  }

  /** The day stamp of a date reads as year, month and day: `YYYYMMDD`. */
  lemma IsoDayStampValue(d: Date)
    requires ValidDate(d)
    ensures ParseDecimal(IsoDayStamp(d)) == d.year * 10000 + d.month * 100 + d.day
  {
    PaddedDecimalParses(d.year, 4);
    TwoDigitsValue(d.month);
    TwoDigitsValue(d.day);
    StampValue(FourDigitYear(d.year), TwoDigits(d.month), TwoDigits(d.day));
  }

  /** For a four-digit year and a valid date the stamp has exactly eight digits. */
  lemma IsoDayStampLength(d: Date)
    requires ValidDate(d) && d.year <= 9999
    ensures |IsoDayStamp(d)| == 8
  {
    assert Pow10(4) == 10000;
    DecimalStringLength(d.year, 4);
    assert |FourDigitYear(d.year)| == 4;
    assert |TwoDigits(d.month)| == 2 && |TwoDigits(d.day)| == 2;
  }

  /** The sequence part: `(count + 1).toString().padStart(4, '0')`. */
  function SequencePart(count: nat): (r: string)
    ensures AllDigits(r) && |r| >= 4
    ensures ParseDecimal(r) == count + 1
  {
    PaddedDecimalParses(count + 1, 4);
    PadStart(DecimalString(count + 1), 4, '0')
  }

  /** The sequence part reads as `count + 1` in exactly four digits up to
      9999, and is the plain numeral from 10000 on. */
  lemma SequencePartWidth(count: nat)
    ensures ParseDecimal(SequencePart(count)) == count + 1
    ensures count + 1 < 10000 ==> |SequencePart(count)| == 4
    ensures count + 1 >= 10000 ==> SequencePart(count) == DecimalString(count + 1)
  {
    NumeralWidth(count + 1);
  }

  /** Below 10000 a numeral has at most four digits, from 10000 on more. */
  lemma NumeralWidth(n: nat)
    ensures n < 10000 <==> |DecimalString(n)| <= 4
  {
    assert Pow10(4) == 10000;
    if n < 10000 {
      DecimalStringLength(n, 4);
    } else {
      DecimalStringLengthAtLeast(n, 4);
    }
  }

  function Compose(prefix: string, stamp: string, count: nat): string {
    prefix + stamp + "-" + SequencePart(count)
  }

  /** `generateBillNumber`: the owner's bill count so far numbers the next bill. */
  function BillNumber(now: Date, ownerBillCount: nat): string {
    Compose(BillPrefix, YearMonthStamp(now), ownerBillCount)
  }

  /** `generateWorkOrderNumber`, with the owner's work-order count. */
  function WorkOrderNumber(now: Date, ownerWorkOrderCount: nat): string {
    Compose(WorkOrderPrefix, YearMonthStamp(now), ownerWorkOrderCount)
  }

  /** The pre-save hook's number, with the count of tickets created today. */
  function TicketNumber(today: Date, ticketsToday: nat): string {
    Compose(TicketPrefix, IsoDayStamp(today), ticketsToday)
  }

  // ------------------------------------------------------------- reading back

  function FirstDash(s: string): (r: Option<nat>)
    ensures r.Some? ==> r.value < |s| && s[r.value] == '-'
    ensures r.Some? ==> forall i :: 0 <= i < r.value ==> s[i] != '-'
    ensures r.None? ==> forall i :: 0 <= i < |s| ==> s[i] != '-'
  {
    FindIndex(s, (c: char) => c == '-')
  }

  /** Splits a document number into its date stamp and its sequence number. */
  function ParseNumber(prefix: string, s: string): Option<(string, nat)> {
    if |s| < |prefix| || s[..|prefix|] != prefix then None
    else ParseStamped(s[|prefix|..])
  }

  /** Splits `stamp-digits` at its first dash. */
  function ParseStamped(rest: string): Option<(string, nat)> {
    match FirstDash(rest)
    case None => None
    case Some(k) =>
      var stamp := rest[..k];
      var digits := rest[k + 1..];
      if |stamp| > 0 && AllDigits(stamp) && |digits| > 0 && AllDigits(digits)
      then Some((stamp, ParseDecimal(digits)))
      else None
  }

  /** The first dash after a stamp of digits is the one that ends it. */
  lemma FirstDashEndsStamp(stamp: string, tail: string)
    requires AllDigits(stamp)
    ensures FirstDash(stamp + "-" + tail) == Some(|stamp|)
  {
    var rest := stamp + "-" + tail;
    forall i | 0 <= i < |stamp| ensures rest[i] != '-' {
      assert rest[i] == stamp[i];
    }
    assert rest[|stamp|] == '-';
  }

  /** A stamp, a dash and a sequence part read back as the stamp and the
      sequence number. */
  lemma ParseStampedComposed(stamp: string, count: nat)
    requires |stamp| > 0 && AllDigits(stamp)
    ensures ParseStamped(stamp + "-" + SequencePart(count)) == Some((stamp, count + 1))
  {
    var tail := SequencePart(count);
    var rest := stamp + "-" + tail;
    FirstDashEndsStamp(stamp, tail);
    assert rest[..|stamp|] == stamp;
    assert rest[|stamp| + 1..] == tail;
  }

  /** A number read under its own prefix is read by what follows it. */
  lemma ParsePrefixed(prefix: string, rest: string)
    ensures ParseNumber(prefix, prefix + rest) == ParseStamped(rest)
  {
    var s := prefix + rest;
    assert s[..|prefix|] == prefix;
    assert s[|prefix|..] == rest;
  }

  /** A composed number reads back as its stamp and `count + 1`. */
  lemma ComposeParses(prefix: string, stamp: string, count: nat)
    requires |stamp| > 0 && AllDigits(stamp)
    ensures ParseNumber(prefix, Compose(prefix, stamp, count)) == Some((stamp, count + 1))
  {
    var rest := stamp + "-" + SequencePart(count);
    assert Compose(prefix, stamp, count) == prefix + rest;
    ParsePrefixed(prefix, rest);
    ParseStampedComposed(stamp, count);
  }

  /** A bill number reads back as its stamp and the next sequence number. */
  lemma BillNumberReads(now: Date, count: nat)
    ensures ParseNumber(BillPrefix, BillNumber(now, count)) == Some((YearMonthStamp(now), count + 1))
  {
    ComposeParses(BillPrefix, YearMonthStamp(now), count);
  }

  lemma WorkOrderNumberReads(now: Date, count: nat)
    ensures ParseNumber(WorkOrderPrefix, WorkOrderNumber(now, count)) == Some((YearMonthStamp(now), count + 1))
  {
    ComposeParses(WorkOrderPrefix, YearMonthStamp(now), count);
  }

  lemma TicketNumberReads(today: Date, count: nat)
    ensures ParseNumber(TicketPrefix, TicketNumber(today, count)) == Some((IsoDayStamp(today), count + 1))
  {
    ComposeParses(TicketPrefix, IsoDayStamp(today), count);
  }

  /** Bill numbers read back as the `YYMM` of their date and the next
      sequence number. */
  lemma BillNumberParses(now: Date, ownerBillCount: nat)
    ensures var p := ParseNumber(BillPrefix, BillNumber(now, ownerBillCount));
            && p == Some((YearMonthStamp(now), ownerBillCount + 1))
            && (ValidDate(now) ==> ParseDecimal(p.value.0) == (now.year % 100) * 100 + now.month)
            && (ValidDate(now) && now.year >= 10 ==> |p.value.0| == 4)
  {
    BillNumberReads(now, ownerBillCount);
    if ValidDate(now) {
      YearMonthStampValue(now);
    }
  }

  /** Two bills issued under different counts never share a number. */
  lemma BillNumbersDistinct(now: Date, now': Date, c: nat, c': nat)
    requires c != c'
    ensures BillNumber(now, c) != BillNumber(now', c')
  {
    BillNumberReads(now, c);
    BillNumberReads(now', c');
  }

  /** Work-order numbers read back as the `YYMM` of their date and the next
      sequence number. */
  lemma WorkOrderNumberParses(now: Date, count: nat)
    ensures var p := ParseNumber(WorkOrderPrefix, WorkOrderNumber(now, count));
            && p == Some((YearMonthStamp(now), count + 1))
            && (ValidDate(now) ==> ParseDecimal(p.value.0) == (now.year % 100) * 100 + now.month)
            && (ValidDate(now) && now.year >= 10 ==> |p.value.0| == 4)
  {
    WorkOrderNumberReads(now, count);
    if ValidDate(now) {
      YearMonthStampValue(now);
    }
  }

  /** Ticket numbers read back as the `YYYYMMDD` of their day and the next
      sequence number of that day. */
  lemma TicketNumberParses(today: Date, ticketsToday: nat)
    ensures var p := ParseNumber(TicketPrefix, TicketNumber(today, ticketsToday));
            && p == Some((IsoDayStamp(today), ticketsToday + 1))
            && (ValidDate(today) ==> ParseDecimal(p.value.0) == today.year * 10000 + today.month * 100 + today.day)
            && (ValidDate(today) && today.year <= 9999 ==> |p.value.0| == 8)
  {
    TicketNumberReads(today, ticketsToday);
    if ValidDate(today) {
      IsoDayStampValue(today);
      if today.year <= 9999 {
        IsoDayStampLength(today);
      }
    }
  }

  /** The prefix opens a composed number and a dash follows the stamp. */
  lemma ComposeShape(prefix: string, stamp: string, count: nat)
    ensures |Compose(prefix, stamp, count)| >= |prefix| + |stamp| + 5
    ensures Compose(prefix, stamp, count)[..|prefix|] == prefix
    ensures Compose(prefix, stamp, count)[|prefix| + |stamp|] == '-'
  {
    var s := Compose(prefix, stamp, count);
    assert s == (prefix + stamp + "-") + SequencePart(count);
    assert (prefix + stamp + "-")[..|prefix|] == prefix;
  }

  /** A bill number from a valid date of a year from 10 on has the fixed
      shape `BILL-YYMM-` followed by at least four digits. */
  lemma BillNumberShape(now: Date, ownerBillCount: nat)
    requires ValidDate(now) && now.year >= 10
    ensures |BillNumber(now, ownerBillCount)| >= 14
    ensures BillNumber(now, ownerBillCount)[..5] == BillPrefix
    ensures BillNumber(now, ownerBillCount)[9] == '-'
  {
    assert |YearMonthStamp(now)| == 4;
    ComposeShape(BillPrefix, YearMonthStamp(now), ownerBillCount);
  }
}
