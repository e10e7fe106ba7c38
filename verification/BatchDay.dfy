/**
 * The day that dates a batch's player versions: `_derive_batch_timestamp` on the ids that the runners
 * give their batches. Later batches never get an earlier day, but two batches of one day share it.
 */
module BatchDay {
  import opened Wrappers
  import opened Ordering
  import opened Frames
  import opened Calendar

  datatype Granularity = Daily | Hourly | Minutely

  /** A clock reading, to the minute. */
  datatype Moment = Moment(date: Date, hour: nat, minute: nat)

  predicate ValidMoment(m: Moment) {
    ValidDate(m.date) && m.hour < 24 && m.minute < 60
  }

  /** `now.strftime(...)` at the configured granularity. */
  function BatchId(g: Granularity, m: Moment): string
    requires ValidMoment(m)
  {
    match g
    case Daily => Iso(m.date)
    case Hourly => Iso(m.date) + ['T'] + Pad(m.hour, 2)
    case Minutely => Iso(m.date) + ['T'] + (Pad(m.hour, 2) + [':'] + Pad(m.minute, 2))
  }

  /** `s.replace("T", " ")`. */
  function BlankT(s: string): (r: string)
    ensures |r| == |s|
    ensures forall i :: 0 <= i < |s| ==> r[i] == if s[i] == 'T' then ' ' else s[i]
  {
    if s == "" then "" else [if s[0] == 'T' then ' ' else s[0]] + BlankT(s[1..])
  }

  function StripLeft(s: string): string {
    if s != "" && IsSpace(s[0]) then StripLeft(s[1..]) else s
  }

  /** One or two digits below a limit. */
  predicate IsField(s: string, limit: nat) {
    1 <= |s| <= 2 && ParseDigits(s).Some? && ParseDigits(s).value < limit
  }

  /** `%H`, `%H:%M` or `%H:%M:%S`. */
  predicate IsClock(s: string) {
    var parts := Split(s, ':');
    && |parts| <= 3 && IsField(parts[0], 24)
    && (|parts| > 1 ==> IsField(parts[1], 60))
    && (|parts| > 2 ==> IsField(parts[2], 60))
  }

  /** The date that one of the four formats finds. */
  function ParseStamp(s: string): Option<Date> {
    var date := Until(s, ' ');
    if date == s then ParseDate(s)
    else if |date| < |s| && IsClock(StripLeft(s[|date|..])) then ParseDate(date)
    else None
  }

  /** `_derive_batch_timestamp`: the date of a dated batch id, otherwise today. */
  function DeriveDay(batchId: string, today: Date): Date {
    var parsed := ParseStamp(Strip(BlankT(batchId)));
    if parsed.Some? then parsed.value else today
  }

  lemma ParseIso(d: Date)
    requires ValidDate(d)
    ensures ParseDate(Iso(d)) == Some(d)
  {
    hide Pad, Split, ParseDigits;
    IsoSplits(d);
    assert Pow10(2) == 100 && Pow10(4) == 10000;
    ParsePad(d.year, 4);
    ParsePad(d.month, 2);
    ParsePad(d.day, 2);
  }

  lemma TwoDigitField(n: nat, limit: nat)
    requires n < limit <= 100
    ensures IsField(Pad(n, 2), limit)
  {
    assert Pow10(2) == 100;
    ParsePad(n, 2);
  }

  lemma ClockParses(hour: nat, minute: nat)
    requires hour < 24 && minute < 60
    ensures IsClock(Pad(hour, 2)) && IsClock(Pad(hour, 2) + [':'] + Pad(minute, 2))
  {
    hide Split, IsField, Pad;
    TwoDigitField(hour, 24);
    TwoDigitField(minute, 60);
    SplitNone(Pad(hour, 2), ':');
    SplitNone(Pad(minute, 2), ':');
    SplitOff(Pad(hour, 2), Pad(minute, 2), ':');
  }

  lemma StripNothing(s: string)
    requires s != "" && !IsSpace(s[0]) && !IsSpace(s[|s| - 1])
    ensures Strip(s) == s && StripLeft(s) == s
  {
  }

  /** A date followed by a clock is parsed to that date. */
  lemma StampParses(d: Date, clock: string, today: Date)
    requires ValidDate(d) && IsClock(clock)
    requires clock != "" && IsDigit(clock[0]) && IsDigit(clock[|clock| - 1]) && 'T' !in clock
    ensures DeriveDay(Iso(d) + ['T'] + clock, today) == d
  {
    hide Iso, IsClock, ParseDate, Strip, StripLeft, Until;
    var iso := Iso(d);
    IsoText(d);
    var id, s := iso + ['T'] + clock, iso + [' '] + clock;
    assert BlankT(id) == s by { BlankOnlyT(iso, clock); }
    StripNothing(s);
    UntilPrefix(iso, [' '] + clock, ' ');
    assert s == iso + ([' '] + clock);
    assert Until([' '] + clock, ' ') == "" by { UntilNow(clock); }
    assert Until(s, ' ') == iso + "" == iso;
    assert s[|iso|..] == [' '] + clock;
    assert StripLeft([' '] + clock) == clock by { StripOneBlank(clock); }
    ParseIso(d);
  }

  lemma UntilNow(rest: string)
    ensures Until([' '] + rest, ' ') == ""
  {
  }

  lemma StripOneBlank(clock: string)
    requires clock != "" && !IsSpace(clock[0])
    ensures StripLeft([' '] + clock) == clock
  {
    assert ([' '] + clock)[1..] == clock;
    StripHere(clock);
  }

  lemma StripHere(clock: string)
    requires clock != "" && !IsSpace(clock[0])
    ensures StripLeft(clock) == clock
  {
  }

  lemma BlankOnlyT(iso: string, clock: string)
    requires 'T' !in iso && 'T' !in clock
    ensures BlankT(iso + ['T'] + clock) == iso + [' '] + clock
  {
    var id, s := iso + ['T'] + clock, iso + [' '] + clock;
    forall i | 0 <= i < |id| ensures BlankT(id)[i] == s[i] {
      if i < |iso| {
        assert id[i] == iso[i] && iso[i] in iso;
      } else if i > |iso| {
        assert id[i] == clock[i - |iso| - 1] && clock[i - |iso| - 1] in clock;
      }
    }
  }

  lemma IsoText(d: Date)
    requires ValidDate(d)
    ensures |Iso(d)| == 10 && IsDigit(Iso(d)[0]) && IsDigit(Iso(d)[9])
    ensures 'T' !in Iso(d) && ' ' !in Iso(d)
  {
    hide Pad;
  }

  /** Round trip: the id of a batch, at any granularity, gives back the batch's own date. */
  lemma DerivedDayIsBatchDay(g: Granularity, m: Moment, today: Date)
    requires ValidMoment(m)
    ensures DeriveDay(BatchId(g, m), today) == m.date
  {
    hide Iso, IsClock, ParseDate, DeriveDay, Pad;
    ClockParses(m.hour, m.minute);
    match g
    case Daily => DateParses(m.date, today);
    case Hourly => StampParses(m.date, Pad(m.hour, 2), today);
    case Minutely => StampParses(m.date, Pad(m.hour, 2) + [':'] + Pad(m.minute, 2), today);
  }

  lemma DateParses(d: Date, today: Date)
    requires ValidDate(d)
    ensures DeriveDay(Iso(d), today) == d
  {
    hide Iso, ParseDate, Strip, StripLeft;
    var iso := Iso(d);
    IsoText(d);
    assert BlankT(iso) == iso by {
      forall i | 0 <= i < |iso| ensures BlankT(iso)[i] == iso[i] {
        assert iso[i] in iso;
      }
    }
    StripNothing(iso);
    UntilPrefix(iso, "", ' ');
    assert iso + "" == iso;
    ParseIso(d);
  }

  /** Batch ids in text order, of one granularity or of two, have days in calendar order. */
  lemma LaterBatchLaterDay(g: Granularity, h: Granularity, a: Moment, b: Moment, today: Date)
    requires ValidMoment(a) && ValidMoment(b)
    requires TextLe(BatchId(g, a), BatchId(h, b))
    ensures DateKey(DeriveDay(BatchId(g, a), today)) <= DateKey(DeriveDay(BatchId(h, b), today))
  {
    hide Iso, DeriveDay, LexLe, Pad;
    DerivedDayIsBatchDay(g, a, today);
    DerivedDayIsBatchDay(h, b, today);
    IsoOrder(a.date, b.date);
    IsoOrder(a.date, a.date);
    IsoText(a.date);
    IsoText(b.date);
    var restA, restB := BatchId(g, a)[10..], BatchId(h, b)[10..];
    assert BatchId(g, a) == Iso(a.date) + restA && BatchId(h, b) == Iso(b.date) + restB;
    LexPrefix(CharLe(), Iso(a.date), Iso(b.date), restA, restB);
  }

  /** Hourly batches of one day differ in id but not in day, so their versions tie. */
  lemma SameDayTies(d: Date, h: nat, k: nat, today: Date)
    requires ValidDate(d) && h < k < 24
    ensures BatchId(Hourly, Moment(d, h, 0)) != BatchId(Hourly, Moment(d, k, 0))
    ensures DeriveDay(BatchId(Hourly, Moment(d, h, 0)), today) == DeriveDay(BatchId(Hourly, Moment(d, k, 0)), today)
  {
    hide Iso, DeriveDay, LexLe, Pad;
    DerivedDayIsBatchDay(Hourly, Moment(d, h, 0), today);
    DerivedDayIsBatchDay(Hourly, Moment(d, k, 0), today);
    assert Pow10(2) == 100;
    PadOrder(h, k, 2);
    IsoText(d);
    assert BatchId(Hourly, Moment(d, h, 0))[11..] == Pad(h, 2) && BatchId(Hourly, Moment(d, k, 0))[11..] == Pad(k, 2);
  }

  /** A batch id without dashes is dated today. */
  lemma UndatedIsToday(id: string, today: Date)
    requires '-' !in id
    ensures DeriveDay(id, today) == today
  {
    var s := Strip(BlankT(id));
    BlankKeepsOthers(id);
    StripAmong(BlankT(id));
    UntilAmong(s, ' ');
    hide Strip, BlankT, Until, ParseDigits, IsClock, StripLeft;
    SplitNone(Until(s, ' '), '-');
    SplitNone(s, '-');
  }

  lemma {:induction false} BlankKeepsOthers(s: string)
    ensures '-' in BlankT(s) ==> '-' in s
  {
    var r := BlankT(s);
    if i :| 0 <= i < |r| && r[i] == '-' {
      assert s[i] == '-';
    }
  }

  /** An hour past 23 makes the whole id undated. */
  lemma BadHourIsToday(d: Date, hour: nat, today: Date)
    requires ValidDate(d) && 24 <= hour < 100
    ensures DeriveDay(Iso(d) + ['T'] + Pad(hour, 2), today) == today
  {
    hide Iso, ParseDate, Strip, StripLeft, Until, Pad, Split, ParseDigits;
    var iso, clock := Iso(d), Pad(hour, 2);
    IsoText(d);
    var id, s := iso + ['T'] + clock, iso + [' '] + clock;
    assert BlankT(id) == s by { BlankOnlyT(iso, clock); }
    StripNothing(s);
    UntilPrefix(iso, [' '] + clock, ' ');
    assert s == iso + ([' '] + clock);
    assert Until([' '] + clock, ' ') == "" by { UntilNow(clock); }
    assert Until(s, ' ') == iso + "" == iso;
    assert s[|iso|..] == [' '] + clock;
    assert StripLeft([' '] + clock) == clock by { StripOneBlank(clock); }
    SplitNone(clock, ':');
    assert Pow10(2) == 100;
    ParsePad(hour, 2);
    assert !IsClock(clock);
  }
}
