/** Calendar dates as day numbers (day 0 is 1970-01-01, the UTC epoch) and
    their ISO 8601 text, as Python's `date.isoformat()` writes it. The fetch
    module uses them only for its default request window: today, and today
    minus `365 * 2` days. */
module Calendar {

  /** The default window length, `timedelta(days=365 * 2)`. */
  const DefaultWindowDays: int := 365 * 2

  function DigitChar(d: nat): char
    requires d < 10
  {
    ('0' as int + d) as char
  }

  /** The decimal digits of `n`, without leading zeros ("0" for zero). */
  function Decimal(n: nat): string
    decreases n
  {
    if n < 10 then [DigitChar(n)] else Decimal(n / 10) + [DigitChar(n % 10)]
  }

  function Zeros(k: nat): string {
    seq(k, _ => '0')
  }

  /** `n` written with at least `width` digits, zero-padded on the left. */
  function PaddedNat(n: nat, width: nat): string {
    var digits := Decimal(n);
    if |digits| >= width then digits else Zeros(width - |digits|) + digits
  }

  function Padded(n: int, width: nat): string {
    if n < 0 then "-" + PaddedNat(-n, width) else PaddedNat(n, width)
  }

  /** Year, month and day of the proleptic Gregorian date `day` days after
      1970-01-01 (the civil-from-days conversion; `/` is floor division here
      because every divisor is positive). */
  function CivilFromDays(day: int): (int, int, int) {
    var z := day + 719468;
    var era := z / 146097;
    var doe := z - era * 146097;
    var yoe := (doe - doe / 1460 + doe / 36524 - doe / 146096) / 365;
    var doy := doe - (365 * yoe + yoe / 4 - yoe / 100);
    var mp := (5 * doy + 2) / 153;
    var d := doy - (153 * mp + 2) / 5 + 1;
    var m := if mp < 10 then mp + 3 else mp - 9;
    (yoe + era * 400 + (if m <= 2 then 1 else 0), m, d)
  }

  /** `date.isoformat()`: `YYYY-MM-DD`. */
  function IsoDate(day: int): string {
    var (y, m, d) := CivilFromDays(day);
    Padded(y, 4) + "-" + Padded(m, 2) + "-" + Padded(d, 2)
  }

  lemma CivilFromDaysExamples()
    ensures CivilFromDays(0) == (1970, 1, 1)
    ensures CivilFromDays(19782) == (2024, 2, 29)
  {
    assert 719468 / 146097 == 4 && 135080 / 1460 == 92 && 135080 / 36524 == 3 && 135080 / 146096 == 0;
    assert 134991 / 365 == 369 && 369 / 4 == 92 && 369 / 100 == 3 && 1532 / 153 == 10 && 1532 / 5 == 306;
    assert 739250 / 146097 == 5 && 8765 / 1460 == 6 && 8765 / 36524 == 0 && 8765 / 146096 == 0;
    assert 8759 / 365 == 23 && 23 / 4 == 5 && 23 / 100 == 0 && 1827 / 153 == 11 && 1685 / 5 == 337;
  }

  lemma DecimalExamples()
    ensures Decimal(1970) == "1970" && Decimal(2024) == "2024"
    ensures Decimal(1) == "1" && Decimal(2) == "2" && Decimal(29) == "29"
  {
    assert Decimal(19) == "19";
    assert Decimal(197) == "197";
    assert Decimal(20) == "20";
    assert Decimal(202) == "202";
  }

  /** The epoch and a leap day come out as the calendar says. */
  lemma IsoDateExamples()
    ensures IsoDate(0) == "1970-01-01"
    ensures IsoDate(19782) == "2024-02-29"
  {
    CivilFromDaysExamples();
    DecimalExamples();
    assert PaddedNat(1, 2) == "01";
    assert PaddedNat(2, 2) == "02";
  }

  lemma {:induction false} DecimalLength(n: nat)
    ensures |Decimal(n)| >= 1
    decreases n
  {
    if n >= 10 {
      DecimalLength(n / 10);
    }
  }

  /** An ISO date is at least ten characters long (more for years past 9999). */
  lemma IsoDateLength(day: int)
    ensures |IsoDate(day)| >= 10
  {
    var (y, m, d) := CivilFromDays(day);
    DecimalLength(if y < 0 then -y else y);
    DecimalLength(if m < 0 then -m else m);
    DecimalLength(if d < 0 then -d else d);
  }
}
