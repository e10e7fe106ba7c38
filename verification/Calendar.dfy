/**
 * Calendar dates, their ISO text and their YYYYMMDD key. String order on ISO text is calendar order is key
 * order; every text form of a date parses back to its key and season; `dim_date` lists each date once.
 */
module Calendar {
  import opened Wrappers
  import opened Ordering
  import opened Frames

  datatype Date = Date(year: int, month: int, day: int)

  predicate Leap(y: int) {
    y % 4 == 0 && (y % 100 != 0 || y % 400 == 0)
  }

  function DaysIn(y: int, m: int): (n: int)
    ensures 28 <= n <= 31
  {
    if m == 2 then if Leap(y) then 29 else 28
    else if m == 4 || m == 6 || m == 9 || m == 11 then 30
    else 31
  }

  /** The dates of Python's `datetime.date`. */
  predicate ValidDate(d: Date) {
    1 <= d.year <= 9999 && 1 <= d.month <= 12 && 1 <= d.day <= DaysIn(d.year, d.month)
  }

  const LAST_DATE := Date(9999, 12, 31)

  predicate Before(a: Date, b: Date) {
    a.year < b.year || (a.year == b.year && (a.month < b.month || (a.month == b.month && a.day < b.day)))
  }

  /** `d + timedelta(days=1)`. */
  function NextDay(d: Date): Date {
    if d.day < DaysIn(d.year, d.month) then d.(day := d.day + 1)
    else if d.month < 12 then Date(d.year, d.month + 1, 1)
    else Date(d.year + 1, 1, 1)
  }

  function DateKey(d: Date): int {
    d.year * 10000 + d.month * 100 + d.day
  }

  /** Date keys are ordered like dates, so they identify them. */
  lemma KeyOrder(a: Date, b: Date)
    requires ValidDate(a) && ValidDate(b)
    ensures Before(a, b) <==> DateKey(a) < DateKey(b)
    ensures a == b <==> DateKey(a) == DateKey(b)
  {
  }

  /** The next day is a date, later than this one, with no date in between. */
  lemma NextDayIsNext(d: Date, e: Date)
    requires ValidDate(d) && d != LAST_DATE
    ensures ValidDate(NextDay(d)) && Before(d, NextDay(d))
    ensures ValidDate(e) && Before(d, e) ==> e == NextDay(d) || Before(NextDay(d), e)
  {
  }

  // ----- Weekdays -----

  function DaysBeforeYear(y: int): int {
    (y - 1) * 365 + (y - 1) / 4 - (y - 1) / 100 + (y - 1) / 400
  }

  function DaysBeforeMonth(y: int, m: int): int
    decreases m
  {
    if m <= 1 then 0 else DaysBeforeMonth(y, m - 1) + DaysIn(y, m - 1)
  }

  /** `date.toordinal()`. */
  function Ordinal(d: Date): int {
    DaysBeforeYear(d.year) + DaysBeforeMonth(d.year, d.month) + d.day
  }

  /** `date.weekday()`: Monday is 0. */
  function Weekday(d: Date): int {
    (Ordinal(d) + 6) % 7
  }

  /** A quotient grows by one exactly at the multiples of the divisor. */
  lemma QuotientStep(y: int, k: int)
    requires k == 4 || k == 100 || k == 400
    ensures y / k - (y - 1) / k == if y % k == 0 then 1 else 0
  {
    var q, r := y / k, y % k;
    if k == 4 {
      assert y == 4 * q + r;
    } else if k == 100 {
      assert y == 100 * q + r;
    } else {
      assert y == 400 * q + r;
    }
  }

  lemma Multiple(q: int)
    ensures (100 * q) % 100 == 0 && (4 * q) % 4 == 0
  {
  }

  lemma LeapDivides(y: int)
    ensures y % 400 == 0 ==> y % 100 == 0
    ensures y % 100 == 0 ==> y % 4 == 0
  {
    if y % 400 == 0 {
      Multiple(4 * (y / 400));
      assert y == 100 * (4 * (y / 400));
    }
    if y % 100 == 0 {
      Multiple(25 * (y / 100));
      assert y == 4 * (25 * (y / 100));
    }
  }

  lemma YearLength(y: int)
    ensures DaysBeforeYear(y + 1) - DaysBeforeYear(y) == if Leap(y) then 366 else 365
  {
    QuotientStep(y, 4);
    QuotientStep(y, 100);
    QuotientStep(y, 400);
    LeapDivides(y);
  }

  lemma MonthsFillYear(y: int)
    ensures DaysBeforeMonth(y, 12) + 31 == if Leap(y) then 366 else 365
  {
    assert DaysBeforeMonth(y, 3) == 31 + DaysIn(y, 2);
    assert DaysBeforeMonth(y, 5) == DaysBeforeMonth(y, 3) + 61;
    assert DaysBeforeMonth(y, 7) == DaysBeforeMonth(y, 5) + 61;
    assert DaysBeforeMonth(y, 9) == DaysBeforeMonth(y, 7) + 62;
    assert DaysBeforeMonth(y, 11) == DaysBeforeMonth(y, 9) + 61;
  }

  lemma MonthTurns(y: int, m: int)
    requires 1 <= m
    ensures DaysBeforeMonth(y, m + 1) == DaysBeforeMonth(y, m) + DaysIn(y, m)
  {
  }

  lemma YearTurns(y: int)
    ensures DaysBeforeYear(y + 1) + DaysBeforeMonth(y + 1, 1) ==
      DaysBeforeYear(y) + DaysBeforeMonth(y, 12) + DaysIn(y, 12)
  {
    YearLength(y);
    MonthsFillYear(y);
    hide DaysBeforeYear, Leap;
    assert DaysBeforeMonth(y + 1, 1) == 0 && DaysIn(y, 12) == 31;
  }

  /** Ordinals count days. */
  lemma OrdinalsFollow(d: Date)
    requires ValidDate(d)
    ensures Ordinal(NextDay(d)) == Ordinal(d) + 1
  {
    hide DaysBeforeYear, DaysBeforeMonth, DaysIn;
    if d.day == DaysIn(d.year, d.month) {
      if d.month == 12 {
        YearTurns(d.year);
      } else {
        MonthTurns(d.year, d.month);
      }
    }
  }

  /** So weekdays follow each other. */
  lemma WeekdaysFollow(d: Date)
    requires ValidDate(d)
    ensures Weekday(NextDay(d)) == (Weekday(d) + 1) % 7
  {
    OrdinalsFollow(d);
    hide Ordinal, NextDay;
    SevenStep(Ordinal(d));
  }

  lemma SevenStep(n: int)
    ensures (n + 7) % 7 == ((n + 6) % 7 + 1) % 7
  {
    var q, r := (n + 6) / 7, (n + 6) % 7;
    assert n + 6 == 7 * q + r;
    if r < 6 {
      assert n + 7 == 7 * q + (r + 1);
      assert (n + 7) / 7 == q;
    } else {
      assert n + 7 == 7 * (q + 1);
      assert (n + 7) / 7 == q + 1;
    }
  }

  /** The first Monday of 2024; with the step from day to day this fixes every weekday. */
  lemma MondayAnchor()
    ensures Weekday(Date(2024, 1, 1)) == 0
  {
    assert DaysBeforeMonth(2024, 1) == 0;
    assert DaysBeforeYear(2024) == 2023 * 365 + 505 - 20 + 5;
  }

  // ----- Text -----

  function Digit(n: int): char
    requires 0 <= n < 10
  {
    '0' + n as char
  }

  predicate IsDigit(c: char) {
    '0' <= c <= '9'
  }

  /** `n` in exactly `width` decimal digits (its last ones). */
  function Pad(n: nat, width: nat): (s: string)
    ensures |s| == width
    ensures forall i :: 0 <= i < |s| ==> IsDigit(s[i])
  {
    if width == 0 then "" else Pad(n / 10, width - 1) + [Digit(n % 10)]
  }

  function Pow10(w: nat): nat {
    if w == 0 then 1 else 10 * Pow10(w - 1)
  }

  /** `int()` on a string of digits; anything else is refused. */
  function ParseDigits(s: string): Option<nat> {
    if s == [] || !IsDigit(s[|s| - 1]) then None
    else
      var last := (s[|s| - 1] - '0') as nat;
      if |s| == 1 then Some(last)
      else
        var front := ParseDigits(s[..|s| - 1]);
        if front.None? then None else Some(10 * front.value + last)
  }

  lemma {:induction false} ParsePad(n: nat, w: nat)
    requires w >= 1 && n < Pow10(w)
    ensures ParseDigits(Pad(n, w)) == Some(n)
  {
    var s := Pad(n, w);
    assert s[..|s| - 1] == Pad(n / 10, w - 1);
    if w > 1 {
      ParsePad(n / 10, w - 1);
    }
  }

  lemma {:induction false} PadOrder(n: nat, m: nat, w: nat)
    requires n < Pow10(w) && m < Pow10(w)
    ensures LexLe(CharLe(), Pad(n, w), Pad(m, w)) <==> n <= m
    ensures Pad(n, w) == Pad(m, w) <==> n == m
  {
    if w > 0 {
      PadOrder(n / 10, m / 10, w - 1);
      var a, b := Pad(n / 10, w - 1), Pad(m / 10, w - 1);
      LexPrefix(CharLe(), a, b, [Digit(n % 10)], [Digit(m % 10)]);
      assert Pad(n, w)[..w - 1] == a && Pad(m, w)[..w - 1] == b;
      assert Pad(n, w)[w - 1] == Digit(n % 10) && Pad(m, w)[w - 1] == Digit(m % 10);
    }
  }

  /** `date.isoformat()`: YYYY-MM-DD. */
  function Iso(d: Date): string
    requires ValidDate(d)
  {
    Pad(d.year, 4) + "-" + Pad(d.month, 2) + "-" + Pad(d.day, 2)
  }

  predicate TextLe(s: string, t: string) {
    LexLe(CharLe(), s, t)
  }

  /** String order on ISO dates is calendar order, the order of date keys. */
  lemma IsoOrder(a: Date, b: Date)
    requires ValidDate(a) && ValidDate(b)
    ensures TextLe(Iso(a), Iso(b)) <==> DateKey(a) <= DateKey(b)
  {
    hide Pad, LexLe;
    var le := CharLe();
    assert Pow10(2) == 100 && Pow10(4) == 10000;
    PadOrder(a.year, b.year, 4);
    PadOrder(a.month, b.month, 2);
    PadOrder(a.day, b.day, 2);
    var ya, yb := Pad(a.year, 4), Pad(b.year, 4);
    var ma, mb := Pad(a.month, 2), Pad(b.month, 2);
    var da, db := Pad(a.day, 2), Pad(b.day, 2);
    assert Iso(a) == ya + ("-" + (ma + ("-" + da))) && Iso(b) == yb + ("-" + (mb + ("-" + db)));
    LexPrefix(le, ya, yb, "-" + (ma + ("-" + da)), "-" + (mb + ("-" + db)));
    LexPrefix(le, "-", "-", ma + ("-" + da), mb + ("-" + db));
    LexPrefix(le, ma, mb, "-" + da, "-" + db);
    LexPrefix(le, "-", "-", da, db);
  }

  /** The text before the first `c`: `s.split(c, 1)[0]`. */
  function Until(s: string, c: char): string {
    if s == "" || s[0] == c then "" else [s[0]] + Until(s[1..], c)
  }

  /** `s.split(c)`. */
  function Split(s: string, c: char): (parts: seq<string>)
    ensures |parts| >= 1
  {
    var head := Until(s, c);
    if |head| >= |s| then [s] else [head] + Split(s[|head| + 1..], c)
  }

  predicate IsSpace(c: char) {
    c == ' ' || c == '\t' || c == '\n' || c == '\r'
  }

  function StripRight(s: string): string {
    if s != "" && IsSpace(s[|s| - 1]) then StripRight(s[..|s| - 1]) else s
  }

  function Strip(s: string): string {
    if s != "" && IsSpace(s[0]) then Strip(s[1..]) else StripRight(s)
  }

  /** The date part of a date or timestamp text: `s.split("T", 1)[0].split(" ", 1)[0]`. */
  function DatePart(s: string): string {
    Until(Until(s, 'T'), ' ')
  }

  /** A date cell: missing, already a key, or text. */
  datatype DateCell = NoDate | KeyCell(key: int) | TextCell(text: string)

  /** `_date_to_key`. */
  function DateToKey(cell: DateCell): Option<int> {
    match cell
    case NoDate => None
    case KeyCell(key) => Some(key)
    case TextCell(text) =>
      var s := Strip(text);
      var parts := Split(DatePart(s), '-');
      if s == "" || |parts| != 3 then None
      else
        var y, m, d := ParseDigits(parts[0]), ParseDigits(parts[1]), ParseDigits(parts[2]);
        if y.None? || m.None? || d.None? then None
        else Some(y.value * 10000 + m.value * 100 + d.value)
  }

  /** `strptime(s, "%Y-%m-%d")`: a four-digit year, one or two digits for month and day. */
  function ParseDate(s: string): Option<Date> {
    var parts := Split(s, '-');
    if |parts| != 3 || |parts[0]| != 4 || |parts[1]| > 2 || |parts[2]| > 2 then None
    else
      var y, m, d := ParseDigits(parts[0]), ParseDigits(parts[1]), ParseDigits(parts[2]);
      if y.None? || m.None? || d.None? then None
      else
        var date := Date(y.value, m.value, d.value);
        if ValidDate(date) then Some(date) else None
  }

  /** `str(n)` for a natural number. */
  function Decimal(n: nat): string {
    if n < 10 then [Digit(n)] else Decimal(n / 10) + [Digit(n % 10)]
  }

  /** `derive_season` on a date: seasons start in August. */
  function Season(d: Date): string
    requires ValidDate(d)
  {
    var start := if d.month >= 8 then d.year else d.year - 1;
    Decimal(start) + "-" + Pad((start + 1) % 100, 2)
  }

  /** `derive_season` on text. */
  function SeasonOfText(text: string): Option<string> {
    var s := Strip(text);
    var d := ParseDate(DatePart(s));
    if s == "" || d.None? then None else Some(Season(d.value))
  }

  lemma UntilCons(x: char, s: string, c: char)
    requires x != c
    ensures Until([x] + s, c) == [x] + Until(s, c)
  {
    assert ([x] + s)[1..] == s;
  }

  lemma {:induction false} UntilPrefix(a: string, b: string, c: char)
    requires c !in a
    ensures Until(a + b, c) == a + Until(b, c)
  {
    hide Until;
    if a == "" {
      assert a + b == b;
    } else {
      UntilPrefix(a[1..], b, c);
      UntilCons(a[0], a[1..] + b, c);
      assert [a[0]] + (a[1..] + b) == a + b;
      assert [a[0]] + (a[1..] + Until(b, c)) == a + Until(b, c);
    }
  }

  lemma SplitOff(a: string, b: string, c: char)
    requires c !in a
    ensures Split(a + [c] + b, c) == [a] + Split(b, c)
  {
    UntilPrefix(a, [c] + b, c);
    assert a + [c] + b == a + ([c] + b);
    assert Until(a + [c] + b, c) == a + "" == a;
    assert (a + [c] + b)[|a| + 1..] == b;
  }

  lemma SplitNone(a: string, c: char)
    requires c !in a
    ensures Split(a, c) == [a]
  {
    UntilPrefix(a, "", c);
    assert a + "" == a;
  }

  lemma IsoSplits(d: Date)
    requires ValidDate(d)
    ensures Split(Iso(d), '-') == [Pad(d.year, 4), Pad(d.month, 2), Pad(d.day, 2)]
  {
    hide Pad, Split;
    var y, m, n := Pad(d.year, 4), Pad(d.month, 2), Pad(d.day, 2);
    assert Iso(d) == y + ['-'] + (m + ['-'] + n);
    CoreSplits(y, m, n);
  }

  lemma {:induction false} StripRightKeepsPrefix(a: string, b: string)
    requires a != "" && !IsSpace(a[|a| - 1])
    ensures exists t :: StripRight(a + b) == a + t && (b != "" && t != "" ==> t[0] == b[0])
  {
    var s := a + b;
    if b != "" && IsSpace(b[|b| - 1]) {
      StripRightKeepsPrefix(a, b[..|b| - 1]);
      assert s[..|s| - 1] == a + b[..|b| - 1];
      var t :| StripRight(a + b[..|b| - 1]) == a + t && (b[..|b| - 1] != "" && t != "" ==> t[0] == b[..|b| - 1][0]);
      if |b| == 1 {
        assert a + b[..|b| - 1] == a;
        assert StripRight(s) == a + "";
      } else {
        assert StripRight(s) == a + t;
      }
    } else {
      assert b == "" ==> s == a;
      assert StripRight(s) == a + b;
    }
  }

  predicate Blank(s: string) {
    forall i :: 0 <= i < |s| ==> IsSpace(s[i])
  }

  /** What may follow a date: a time after `T` or a blank, or nothing but blanks. */
  predicate Tail(s: string) {
    Blank(s) || s[0] == 'T' || s[0] == ' '
  }

  /** A date as the sources spell it: blanks, four, one or two, one or two digits, and a tail. */
  datatype Spelling = Spelling(lead: string, year: string, month: string, day: string, rest: string) {
    function Core(): string {
      year + ['-'] + (month + ['-'] + day)
    }

    function Text(): string {
      lead + Core() + rest
    }

    predicate Spells(d: Date) {
      && Blank(lead) && Tail(rest)
      && |year| == 4 && 1 <= |month| <= 2 && 1 <= |day| <= 2
      && ParseDigits(year) == Some(d.year) && ParseDigits(month) == Some(d.month) && ParseDigits(day) == Some(d.day)
    }
  }

  /** The text spells the date. */
  ghost predicate Writes(text: string, d: Date) {
    exists sp: Spelling :: sp.Spells(d) && sp.Text() == text
  }

  /** The text spells the date in its ISO form, blanks and tail aside. */
  ghost predicate Dated(d: Date, text: string)
    requires ValidDate(d)
  {
    exists lead, rest :: IsoBetween(d, lead, rest, text)
  }

  predicate IsoBetween(d: Date, lead: string, rest: string, text: string)
    requires ValidDate(d)
  {
    Blank(lead) && Tail(rest) && text == lead + Iso(d) + rest
  }

  lemma {:induction false} StripLead(lead: string, s: string)
    requires Blank(lead)
    ensures Strip(lead + s) == Strip(s)
  {
    if lead == "" {
      assert lead + s == s;
    } else {
      assert (lead + s)[1..] == lead[1..] + s;
      StripLead(lead[1..], s);
    }
  }

  lemma {:induction false} StripRightBlank(a: string, b: string)
    requires Blank(b) && a != "" && !IsSpace(a[|a| - 1])
    ensures StripRight(a + b) == a
  {
    var s := a + b;
    if b == "" {
      assert s == a;
    } else {
      assert s[..|s| - 1] == a + b[..|b| - 1];
      StripRightBlank(a, b[..|b| - 1]);
    }
  }

  /** Stripping and splitting a timestamp leaves its date. */
  lemma DatePartOfCore(lead: string, core: string, rest: string)
    requires Blank(lead) && Tail(rest)
    requires core != "" && 'T' !in core && !IsSpace(core[0]) && !IsSpace(core[|core| - 1]) && ' ' !in core
    ensures Strip(lead + core + rest) != "" && DatePart(Strip(lead + core + rest)) == core
  {
    hide StripRight;
    assert lead + core + rest == lead + (core + rest);
    StripLead(lead, core + rest);
    StripRightKeepsPrefix(core, rest);
    var t :| StripRight(core + rest) == core + t && (rest != "" && t != "" ==> t[0] == rest[0]);
    assert Strip(core + rest) == core + t by {
      assert (core + rest)[0] == core[0];
    }
    StripLength(core, rest, t);
    if Blank(rest) {
      StripRightBlank(core, rest);
      assert core + t == core;
    }
    UntilPrefix(core, t, 'T');
    UntilPrefix(core, Until(t, 'T'), ' ');
    assert core + "" == core;
  }

  lemma DatePartOfDated(d: Date, text: string)
    requires ValidDate(d) && Dated(d, text)
    ensures Strip(text) != "" && DatePart(Strip(text)) == Iso(d)
  {
    var lead, rest :| IsoBetween(d, lead, rest, text);
    hide Pad;
    var iso := Iso(d);
    assert IsDigit(iso[0]) && IsDigit(iso[9]) && 'T' !in iso && ' ' !in iso;
    DatePartOfCore(lead, iso, rest);
  }

  /** The ISO form is one of the spellings. */
  lemma DatedWrites(d: Date, text: string)
    requires ValidDate(d) && Dated(d, text)
    ensures Writes(text, d)
  {
    hide Pad, ParseDigits;
    var lead, rest :| IsoBetween(d, lead, rest, text);
    assert Pow10(2) == 100 && Pow10(4) == 10000;
    ParsePad(d.year, 4);
    ParsePad(d.month, 2);
    ParsePad(d.day, 2);
    var sp := Spelling(lead, Pad(d.year, 4), Pad(d.month, 2), Pad(d.day, 2), rest);
    assert sp.Core() == Iso(d);
    assert sp.Spells(d) && sp.Text() == text;
  }

  lemma {:induction false} DigitsOnly(s: string)
    requires ParseDigits(s).Some?
    ensures forall i :: 0 <= i < |s| ==> IsDigit(s[i])
  {
    if |s| > 1 {
      DigitsOnly(s[..|s| - 1]);
      assert forall i :: 0 <= i < |s| - 1 ==> s[i] == s[..|s| - 1][i];
    }
  }

  lemma StripLength(a: string, b: string, t: string)
    requires StripRight(a + b) == a + t
    ensures |t| <= |b|
  {
    StripRightShortens(a + b);
  }

  lemma {:induction false} StripRightShortens(s: string)
    ensures |StripRight(s)| <= |s|
  {
    if s != "" {
      StripRightShortens(s[..|s| - 1]);
    }
  }

  /** Round trip: however a date is spelled, the text has that date's key and that date's season. */
  lemma DatedTextParses(d: Date, text: string)
    requires ValidDate(d) && Writes(text, d)
    ensures DateToKey(TextCell(text)) == Some(DateKey(d))
    ensures SeasonOfText(text) == Some(Season(d))
  {
    hide Split, Strip, DatePart, ParseDigits, Season;
    var sp: Spelling :| sp.Spells(d) && sp.Text() == text;
    CoreText(sp, d);
    DatePartOfCore(sp.lead, sp.Core(), sp.rest);
    CoreSplits(sp.year, sp.month, sp.day);
  }

  lemma CoreText(sp: Spelling, d: Date)
    requires sp.Spells(d)
    ensures '-' !in sp.year && '-' !in sp.month && '-' !in sp.day
    ensures
      var core := sp.Core();
      core != "" && 'T' !in core && ' ' !in core && !IsSpace(core[0]) && !IsSpace(core[|core| - 1])
  {
    DigitsOnly(sp.year);
    DigitsOnly(sp.month);
    DigitsOnly(sp.day);
    hide ParseDigits;
    var core := sp.Core();
    assert core[0] == sp.year[0] && core[|core| - 1] == sp.day[|sp.day| - 1];
  }

  lemma CoreSplits(year: string, month: string, day: string)
    requires '-' !in year && '-' !in month && '-' !in day
    ensures Split(year + ['-'] + (month + ['-'] + day), '-') == [year, month, day]
  {
    hide Split;
    SplitOff(year, month + ['-'] + day, '-');
    SplitOff(month, day, '-');
    SplitNone(day, '-');
  }

  /** Three digit fields make a key even where they are no date; then there is no season. */
  lemma TripleKey(text: string, year: string, month: string, day: string, y: nat, m: nat, d: nat)
    requires Strip(text) != "" && DatePart(Strip(text)) == year + ['-'] + (month + ['-'] + day)
    requires ParseDigits(year) == Some(y) && ParseDigits(month) == Some(m) && ParseDigits(day) == Some(d)
    ensures DateToKey(TextCell(text)) == Some(10000 * y + 100 * m + d)
    ensures !ValidDate(Date(y, m, d)) ==> SeasonOfText(text).None?
  {
    hide ParseDigits, Split, Strip, DatePart;
    DigitsOnly(year);
    DigitsOnly(month);
    DigitsOnly(day);
    CoreSplits(year, month, day);
  }

  /** Text without dashes has neither key nor season; nor has blank text. */
  lemma NoDashNoDate(text: string)
    requires '-' !in text
    ensures DateToKey(TextCell(text)).None? && SeasonOfText(text).None?
  {
    StripAmong(text);
    UntilAmong(Strip(text), 'T');
    UntilAmong(Until(Strip(text), 'T'), ' ');
    hide Until, Strip, ParseDigits;
    SplitNone(DatePart(Strip(text)), '-');
  }

  lemma {:induction false} UntilAmong(s: string, c: char)
    ensures forall x :: x in Until(s, c) ==> x in s
  {
    if s != "" && s[0] != c {
      UntilAmong(s[1..], c);
      assert s == [s[0]] + s[1..];
    }
  }

  lemma {:induction false} StripRightAmong(s: string)
    ensures forall x :: x in StripRight(s) ==> x in s
  {
    if s != "" && IsSpace(s[|s| - 1]) {
      StripRightAmong(s[..|s| - 1]);
    }
  }

  lemma {:induction false} StripAmong(s: string)
    ensures forall x :: x in Strip(s) ==> x in s
  {
    if s != "" && IsSpace(s[0]) {
      StripAmong(s[1..]);
    } else {
      StripRightAmong(s);
    }
  }

  // ----- dim_date -----

  datatype DateRow = DateRow(
    dateKey: int, date: string, year: int, quarter: int, month: int, day: int,
    dayOfWeek: int, dayName: string, weekend: bool, season: string)

  const DAY_NAMES: seq<string> := ["Monday", "Tuesday", "Wednesday", "Thursday", "Friday", "Saturday", "Sunday"]

  function RowFor(d: Date): DateRow
    requires ValidDate(d)
  {
    DateRow(DateKey(d), Iso(d), d.year, (d.month - 1) / 3 + 1, d.month, d.day, Weekday(d), DAY_NAMES[Weekday(d)],
      Weekday(d) >= 5, Season(d))
  }

  /** August opens the season named after its year and the next. */
  lemma SeasonStartsInAugust(d: Date, start: int)
    requires ValidDate(d)
    requires !Before(d, Date(start, 8, 1)) && Before(d, Date(start + 1, 8, 1))
    ensures 0 <= start && Season(d) == Decimal(start) + "-" + Pad((start + 1) % 100, 2)
  {
  }

  lemma {:induction false} DecimalParses(n: nat)
    ensures ParseDigits(Decimal(n)) == Some(n)
    ensures 1000 <= n < 10000 ==> |Decimal(n)| == 4
  {
    if n >= 10 {
      DecimalParses(n / 10);
      assert Decimal(n)[..|Decimal(n)| - 1] == Decimal(n / 10);
    }
    DecimalLength(n);
  }

  lemma DecimalLength(n: nat)
    ensures 1000 <= n < 10000 ==> |Decimal(n)| == 4
  {
    if 1000 <= n < 10000 {
      assert |Decimal(n / 10 / 10 / 10)| == 1;
      assert |Decimal(n / 10 / 10)| == 2;
      assert |Decimal(n / 10)| == 3;
    }
  }

  /** A season label reads as its years: four digits, a dash, and the last two digits of the next year. */
  lemma SeasonReads(d: Date, start: int)
    requires ValidDate(d) && 1000 <= start
    requires !Before(d, Date(start, 8, 1)) && Before(d, Date(start + 1, 8, 1))
    ensures
      var s := Season(d);
      && |s| == 7 && s[4] == '-'
      && ParseDigits(s[..4]) == Some(start) && ParseDigits(s[5..]) == Some((start + 1) % 100)
  {
    hide Decimal, Pad, ParseDigits, Season;
    SeasonStartsInAugust(d, start);
    DecimalParses(start);
    assert Pow10(2) == 100;
    ParsePad((start + 1) % 100, 2);
    var s := Season(d);
    assert s[..4] == Decimal(start) && s[5..] == Pad((start + 1) % 100, 2);
  }

  /** A row of `dim_date`, column by column. */
  lemma RowMeans(d: Date)
    requires ValidDate(d)
    ensures
      var r := RowFor(d);
      && r.year == d.year && r.month == d.month && r.day == d.day
      && r.dateKey == 10000 * d.year + 100 * d.month + d.day && r.date == Iso(d)
      && 1 <= r.quarter <= 4 && 3 * r.quarter - 2 <= d.month <= 3 * r.quarter
      && 0 <= r.dayOfWeek <= 6 && r.dayOfWeek == Weekday(d)
      && (r.weekend <==> r.dayName == "Saturday" || r.dayName == "Sunday")
      && r.dayName ==
        ["Monday", "Tuesday", "Wednesday", "Thursday", "Friday", "Saturday", "Sunday"][r.dayOfWeek]
      && r.season == Season(d)
  {
    hide Weekday, Iso, Season, Decimal;
    WeekdayRange(d);
    NamesDiffer();
  }

  lemma WeekdayRange(d: Date)
    ensures 0 <= Weekday(d) <= 6
  {
  }

  lemma NamesDiffer()
    ensures DAY_NAMES == ["Monday", "Tuesday", "Wednesday", "Thursday", "Friday", "Saturday", "Sunday"]
    ensures forall i, j :: 0 <= i < j < 7 ==> DAY_NAMES[i] != DAY_NAMES[j]
  {
    var n := DAY_NAMES;
    assert n[0][0] == 'M' && n[1][1] == 'u' && n[1][0] == 'T' && n[2][0] == 'W' && n[3][1] == 'h' && n[3][0] == 'T';
    assert n[4][0] == 'F' && n[5][1] == 'a' && n[5][0] == 'S' && n[6][1] == 'u' && n[6][0] == 'S';
  }

  function DateIn(r: DateRow): Date {
    Date(r.year, r.month, r.day)
  }

  datatype DateError = EndBeforeStart | DateOverflow

  /** `rows` lists every date from `start` up to but excluding `stop`, once, in key order. */
  ghost predicate ListsDates(rows: seq<DateRow>, start: Date, stop: Date) {
    && (forall i :: 0 <= i < |rows| ==>
      && ValidDate(DateIn(rows[i])) && rows[i] == RowFor(DateIn(rows[i]))
      && !Before(DateIn(rows[i]), start) && Before(DateIn(rows[i]), stop))
    && (forall i, j :: 0 <= i < j < |rows| ==> rows[i].dateKey < rows[j].dateKey)
    && (forall d :: ValidDate(d) && !Before(d, start) && Before(d, stop) ==> HasRow(rows, d))
  }

  ghost predicate HasRow(rows: seq<DateRow>, d: Date)
    requires ValidDate(d)
  {
    exists i :: 0 <= i < |rows| && rows[i] == RowFor(d)
  }

  lemma ListOneMore(rows: seq<DateRow>, start: Date, d: Date)
    requires ValidDate(d) && d != LAST_DATE && !Before(d, start)
    requires ListsDates(rows, start, d)
    ensures ListsDates(rows + [RowFor(d)], start, NextDay(d))
  {
    hide RowFor, NextDay;
    var more := rows + [RowFor(d)];
    assert DateIn(RowFor(d)) == d && RowFor(d).dateKey == DateKey(d) by { RowForDate(d); }
    NextDayIsNext(d, d);
    forall i | 0 <= i < |rows| ensures rows[i].dateKey < DateKey(d) && Before(DateIn(rows[i]), NextDay(d)) {
      RowForDate(DateIn(rows[i]));
      KeyOrder(DateIn(rows[i]), d);
    }
    forall e | ValidDate(e) && !Before(e, start) && Before(e, NextDay(d)) ensures HasRow(more, e) {
      NextDayIsNext(d, e);
      if e == d {
        assert more[|rows|] == RowFor(e);
      } else {
        assert HasRow(rows, e);
        var i :| 0 <= i < |rows| && rows[i] == RowFor(e);
        assert more[i] == RowFor(e);
      }
    }
  }

  lemma RowForDate(d: Date)
    requires ValidDate(d)
    ensures DateIn(RowFor(d)) == d && RowFor(d).dateKey == DateKey(d)
  {
  }

  /** `build_dim_date`: every date of the inclusive range exactly once, by strictly increasing key. */
  method BuildDimDate(start: Date, end: Date) returns (result: Result<seq<DateRow>, DateError>)
    requires ValidDate(start) && ValidDate(end)
    ensures Before(end, start) ==> result == Failure(EndBeforeStart)
    ensures !Before(end, start) && end == LAST_DATE ==> result == Failure(DateOverflow)
    ensures !Before(end, start) && end != LAST_DATE ==> result.Success? && ListsDates(result.value, start, NextDay(end))
  {
    hide RowFor, NextDay, DaysIn, Weekday, Iso, Season;
    if Before(end, start) {
      return Failure(EndBeforeStart);
    }
    var rows: seq<DateRow> := [];
    var current := start;
    while !Before(end, current)
      invariant ValidDate(current) && !Before(current, start)
      invariant !Before(end, current) || (end != LAST_DATE && current == NextDay(end))
      invariant ListsDates(rows, start, current)
      decreases DateKey(end) - DateKey(current)
    {
      rows := rows + [RowFor(current)];
      if current == LAST_DATE {
        KeyOrder(end, current);
        assert end == LAST_DATE by { LastIsLast(end); }
        return Failure(DateOverflow);
      }
      ListOneMore(rows[..|rows| - 1], start, current);
      assert rows == rows[..|rows| - 1] + [RowFor(current)];
      NextDayIsNext(current, end);
      KeyOrder(current, NextDay(current));
      KeyOrder(current, end);
      LastIsLast(end);
      current := NextDay(current);
    }
    result := Success(rows);
  }

  lemma LastIsLast(d: Date)
    requires ValidDate(d)
    ensures d == LAST_DATE || Before(d, LAST_DATE)
  {
  }
}
