/**
 * Duration formatting of `Warhead::Time::ToTimeString` (src/common/Utilities/Timer.cpp).
 *
 * A count of microseconds is split into days, hours, minutes, seconds, milliseconds
 * and microseconds, and then rendered either by a numeric template or as text with a
 * suffix per unit, cut off after a chosen unit.  Counts are `uint64`; the wrappers
 * that scale a coarser unit to microseconds wrap around modulo 2^64, as C++ does.
 */
module Timer {
  import opened Wrappers
  import opened StringUtil

  const UINT32_LIMIT: nat := 0x1_0000_0000
  const UINT64_LIMIT: nat := 0x1_0000_0000_0000_0000

  type uint64 = x: int | 0 <= x < UINT64_LIMIT
  type int64 = x: int | -0x8000_0000_0000_0000 <= x < 0x8000_0000_0000_0000

  // Warhead::TimeDiff: the length of each unit, in microseconds.
  const MILLISECONDS: nat := 1000
  const SECONDS: nat := 1000 * MILLISECONDS
  const MINUTES: nat := 60 * SECONDS
  const HOURS: nat := 60 * MINUTES
  const DAYS: nat := 24 * HOURS

  /** `TimeOutput`: the finest unit the text rendering keeps. */
  datatype TimeUnit = Days | Hours | Minutes | Seconds | Milliseconds | Microseconds

  /** `TimeFormat`. */
  datatype TimeFormat = FullText | ShortText | Numeric

  /** Position of a unit, coarsest first. */
  function Rank(u: TimeUnit): nat {
    match u
    case Days => 0
    case Hours => 1
    case Minutes => 2
    case Seconds => 3
    case Milliseconds => 4
    case Microseconds => 5
  }

  /** Every unit, coarsest first: the order in which the text rendering visits them. */
  const ALL_UNITS: seq<TimeUnit> := [Days, Hours, Minutes, Seconds, Milliseconds, Microseconds]

  /** A duration split into its six components. */
  datatype Breakdown = Breakdown(days: nat, hours: nat, minutes: nat, secs: nat, millisecs: nat, microsecs: nat)
  {
    function Count(u: TimeUnit): nat {
      match u
      case Days => days
      case Hours => hours
      case Minutes => minutes
      case Seconds => secs
      case Milliseconds => millisecs
      case Microseconds => microsecs
    }

    /** The number of microseconds the components add up to. */
    function Total(): nat {
      microsecs + MILLISECONDS * millisecs + SECONDS * secs + MINUTES * minutes + HOURS * hours + DAYS * days
    }
  }

  /** The largest day count a `uint64` microsecond count can hold. */
  const MAX_DAYS: nat := (UINT64_LIMIT - 1) / DAYS

  /**
   * The component split at the head of `ToTimeString<Microseconds>`.  The components
   * add up to the duration, each is below the size of the next coarser unit, and the
   * day count fits in the `uint32` that `GetStringFormat` takes.
   */
  function Split(durationTime: uint64): (b: Breakdown)
    ensures b.Total() == durationTime
    ensures b.microsecs < 1000 && b.millisecs < 1000 && b.secs < 60 && b.minutes < 60 && b.hours < 24
    ensures b.days <= MAX_DAYS < UINT32_LIMIT
  {
    var b := Breakdown(
      durationTime / DAYS,
      (durationTime / HOURS) % 24,
      (durationTime / MINUTES) % 60,
      (durationTime / SECONDS) % 60,
      (durationTime / MILLISECONDS) % 1000,
      durationTime % 1000);
    SplitAddsUp(durationTime);
    b
  }

  /** The six components of the split add up to the duration again. */
  lemma SplitAddsUp(d: uint64)
    ensures var b := Breakdown(d / DAYS, (d / HOURS) % 24, (d / MINUTES) % 60, (d / SECONDS) % 60, (d / MILLISECONDS) % 1000, d % 1000);
      b.Total() == d && b.days <= MAX_DAYS
  {
    var q1 := d / MILLISECONDS;
    assert d == 1000 * q1 + d % 1000;
    var q2 := q1 / 1000;
    assert q1 == 1000 * q2 + q1 % 1000;
    assert SECONDS * q2 <= d < SECONDS * q2 + SECONDS;
    assert d / SECONDS == q2;
    var q3 := q2 / 60;
    assert q2 == 60 * q3 + q2 % 60;
    assert MINUTES * q3 <= d < MINUTES * q3 + MINUTES;
    assert d / MINUTES == q3;
    var q4 := q3 / 60;
    assert q3 == 60 * q4 + q3 % 60;
    assert HOURS * q4 <= d < HOURS * q4 + HOURS;
    assert d / HOURS == q4;
    var q5 := q4 / 24;
    assert q4 == 24 * q5 + q4 % 24;
    assert DAYS * q5 <= d < DAYS * q5 + DAYS;
    assert d / DAYS == q5;
    var b := Breakdown(q5, q4 % 24, q3 % 60, q2 % 60, q1 % 1000, d % 1000);
    assert b.Total() == d % 1000 + 1000 * (q1 % 1000) + 1000000 * (q2 % 60) + 60000000 * (q3 % 60)
      + 3600000000 * (q4 % 24) + 86400000000 * q5;
  }

  /** Each component is below the size of the next coarser unit. */
  predicate Normal(b: Breakdown) {
    b.microsecs < 1000 && b.millisecs < 1000 && b.secs < 60 && b.minutes < 60 && b.hours < 24
  }

  /**
   * The split is the only normal breakdown of a duration: splitting what a normal
   * breakdown adds up to gives that breakdown back.
   */
  lemma SplitOfTotal(b: Breakdown)
    requires Normal(b) && b.Total() < UINT64_LIMIT
    ensures Split(b.Total()) == b
  {
    var c := Split(b.Total());
    assert c.Total() == b.Total();
    NestedTotal(b);
    NestedTotal(c);
    PlaceValue(b.microsecs, b.millisecs + 1000 * (b.secs + 60 * (b.minutes + 60 * (b.hours + 24 * b.days))),
               c.microsecs, c.millisecs + 1000 * (c.secs + 60 * (c.minutes + 60 * (c.hours + 24 * c.days))), 1000);
    PlaceValue(b.millisecs, b.secs + 60 * (b.minutes + 60 * (b.hours + 24 * b.days)),
               c.millisecs, c.secs + 60 * (c.minutes + 60 * (c.hours + 24 * c.days)), 1000);
    PlaceValue(b.secs, b.minutes + 60 * (b.hours + 24 * b.days), c.secs, c.minutes + 60 * (c.hours + 24 * c.days), 60);
    PlaceValue(b.minutes, b.hours + 24 * b.days, c.minutes, c.hours + 24 * c.days, 60);
    PlaceValue(b.hours, b.days, c.hours, c.days, 24);
  }

  /** The total written as nested place values. */
  lemma NestedTotal(b: Breakdown)
    ensures b.Total() == b.microsecs + 1000 * (b.millisecs + 1000 * (b.secs + 60 * (b.minutes + 60 * (b.hours + 24 * b.days))))
  {
  }

  /** A digit below `k` and the number of whole `k`s are determined by their sum. */
  lemma PlaceValue(x1: nat, y1: nat, x2: nat, y2: nat, k: nat)
    requires k == 24 || k == 60 || k == 1000
    requires x1 < k && x2 < k && x1 + k * y1 == x2 + k * y2
    ensures x1 == x2 && y1 == y2
  {
  }

  /** The conversion to the `uint32 timeType` parameter of `GetStringFormat`. */
  function ToUint32(n: nat): nat {
    n % UINT32_LIMIT
  }

  /** No component of a split is changed by the conversion to `uint32`. */
  lemma ComponentsFitUint32(d: uint64, u: TimeUnit)
    ensures ToUint32(Split(d).Count(u)) == Split(d).Count(u)
  {
  }

  function ShortSuffix(u: TimeUnit): string {
    match u
    case Days => "d "
    case Hours => "h "
    case Minutes => "m "
    case Seconds => "s "
    case Milliseconds => "ms "
    case Microseconds => "us "
  }

  function FullSuffix(u: TimeUnit, plural: bool): string {
    match u
    case Days => if plural then " Days " else " Day "
    case Hours => if plural then " Hours " else " Hour "
    case Minutes => if plural then " Minutes " else " Minute "
    case Seconds => if plural then " Seconds " else " Second "
    case Milliseconds => if plural then " Milliseconds " else " Millisecond "
    case Microseconds => if plural then " Microseconds " else " Microsecond "
  }

  const UNKNOWN_FORMAT: string := "<Unknown time format>"

  /** The `GetStringFormat` lambda: a count followed by the suffix the format calls for. */
  function Piece(timeType: nat, u: TimeUnit, f: TimeFormat): string {
    Decimal(timeType) +
      match f
      case ShortText => ShortSuffix(u)
      case FullText => FullSuffix(u, timeType != 1)
      case Numeric => UNKNOWN_FORMAT
  }

  /** What one unit contributes to the text: its piece if its count is nonzero, else nothing. */
  function UnitText(b: Breakdown, u: TimeUnit, f: TimeFormat): string {
    if b.Count(u) != 0 then Piece(ToUint32(b.Count(u)), u, f) else ""
  }

  /** The unit visited just before `u`. */
  function Coarser(u: TimeUnit): (c: TimeUnit)
    requires u != Days
    ensures Rank(c) + 1 == Rank(u)
  {
    match u
    case Hours => Days
    case Minutes => Hours
    case Seconds => Minutes
    case Milliseconds => Seconds
    case Microseconds => Milliseconds
  }

  /**
   * The text accumulated in `ss` when the rendering reaches unit `o`: what the coarser
   * units contributed, followed by what `o` contributes.
   */
  function TextUpTo(b: Breakdown, o: TimeUnit, f: TimeFormat): string
    decreases Rank(o)
  {
    if o == Days then UnitText(b, Days, f) else TextUpTo(b, Coarser(o), f) + UnitText(b, o, f)
  }

  /** `{:02}`: at least two digits, zero-padded on the left. */
  function Pad2(n: nat): string {
    if n < 10 then "0" + Decimal(n) else Decimal(n)
  }

  /**
   * The numeric templates, tried coarsest unit first.  The microsecond template is
   * guarded by a second test of `millisecs`, which has just been found zero, so it never
   * applies; a duration below one millisecond gets no template.
   */
  function NumericTemplate(b: Breakdown): Option<string> {
    if b.days != 0 then
      Some(Decimal(b.days) + ":" + Pad2(b.hours) + ":" + Pad2(b.minutes) + ":" + Pad2(b.secs) + ":" + Pad2(b.millisecs) + ":" + Pad2(b.microsecs))
    else if b.hours != 0 then
      Some(Decimal(b.hours) + "::" + Pad2(b.minutes) + Pad2(b.secs) + ":" + Pad2(b.millisecs) + ":" + Pad2(b.microsecs))
    else if b.minutes != 0 then
      Some(Decimal(b.minutes) + ":" + Pad2(b.secs) + ":" + Pad2(b.millisecs) + ":" + Pad2(b.microsecs))
    else if b.secs != 0 then
      Some(Decimal(b.secs) + ":" + Pad2(b.millisecs) + ":" + Pad2(b.microsecs))
    else if b.millisecs != 0 then
      Some(Decimal(b.millisecs) + ":" + Pad2(b.microsecs))
    else if b.millisecs != 0 then
      Some(Decimal(b.microsecs))
    else
      None
  }

  /** The result of `ToTimeString<Microseconds>(durationTime, timeOutput, timeFormat)`. */
  function TimeString(durationTime: uint64, o: TimeUnit, f: TimeFormat): string {
    RenderBreakdown(Split(durationTime), o, f)
  }

  /** A breakdown rendered: the numeric template when one applies, otherwise the unit text trimmed on the right. */
  function RenderBreakdown(b: Breakdown, o: TimeUnit, f: TimeFormat): string {
    if f == Numeric && NumericTemplate(b).Some? then NumericTemplate(b).value
    else TrimRight(TextUpTo(b, o, f))
  }

  /**
   * `ToTimeString<Microseconds>`: the numeric template when the format is numeric and
   * one applies; otherwise the text built unit by unit in `ss`, saved into `stringTime`
   * when the `timeOutput` unit has been visited, and trimmed on the right.
   */
  method ToTimeString(durationTime: uint64, timeOutput: TimeUnit, timeFormat: TimeFormat) returns (s: string)
    ensures s == TimeString(durationTime, timeOutput, timeFormat)
  {
    var b := Split(durationTime);

    if timeFormat == Numeric {
      var numeric := NumericTemplate(b);
      if numeric.Some? {
        return numeric.value;
      }
    }

    var ss := "";
    var stringTime := "";

    ss := ss + UnitText(b, Days, timeFormat);
    assert ss == TextUpTo(b, Days, timeFormat);
    stringTime := if timeOutput == Days then ss else stringTime;

    ss := ss + UnitText(b, Hours, timeFormat);
    assert ss == TextUpTo(b, Hours, timeFormat);
    stringTime := if timeOutput == Hours then ss else stringTime;

    ss := ss + UnitText(b, Minutes, timeFormat);
    assert ss == TextUpTo(b, Minutes, timeFormat);
    stringTime := if timeOutput == Minutes then ss else stringTime;

    ss := ss + UnitText(b, Seconds, timeFormat);
    assert ss == TextUpTo(b, Seconds, timeFormat);
    stringTime := if timeOutput == Seconds then ss else stringTime;

    ss := ss + UnitText(b, Milliseconds, timeFormat);
    assert ss == TextUpTo(b, Milliseconds, timeFormat);
    stringTime := if timeOutput == Milliseconds then ss else stringTime;

    ss := ss + UnitText(b, Microseconds, timeFormat);
    assert ss == TextUpTo(b, Microseconds, timeFormat);
    stringTime := if timeOutput == Microseconds then ss else stringTime;

    s := TrimRight(stringTime);
  }

  // ---------------------------------------------------------------------------
  // Numeric format

  /** The coarsest unit, from days down to milliseconds, whose count is nonzero. */
  function Leading(b: Breakdown): (r: Option<TimeUnit>)
    ensures r.Some? ==> Rank(r.value) <= 4 && b.Count(r.value) != 0
    ensures r.Some? ==> forall v :: Rank(v) < Rank(r.value) ==> b.Count(v) == 0
    ensures r.None? ==> forall v :: Rank(v) <= 4 ==> b.Count(v) == 0
  {
    if b.days != 0 then Some(Days)
    else if b.hours != 0 then Some(Hours)
    else if b.minutes != 0 then Some(Minutes)
    else if b.secs != 0 then Some(Seconds)
    else if b.millisecs != 0 then Some(Milliseconds)
    else None
  }

  /** The counts of `u` and every finer unit, coarsest first. */
  function FieldsFrom(b: Breakdown, u: TimeUnit): (fs: seq<nat>)
    ensures |fs| == 6 - Rank(u)
    ensures forall i :: 0 <= i < |fs| ==> fs[i] == b.Count(ALL_UNITS[Rank(u) + i])
  {
    match u
    case Days => [b.days, b.hours, b.minutes, b.secs, b.millisecs, b.microsecs]
    case Hours => [b.hours, b.minutes, b.secs, b.millisecs, b.microsecs]
    case Minutes => [b.minutes, b.secs, b.millisecs, b.microsecs]
    case Seconds => [b.secs, b.millisecs, b.microsecs]
    case Milliseconds => [b.millisecs, b.microsecs]
    case Microseconds => [b.microsecs]
  }

  /**
   * What each numeric template puts between its fields.  All are colons, except in
   * the hours template, which writes a double colon after the hours and nothing
   * between the minutes and the seconds.
   */
  function NumericSeparators(u: TimeUnit): (seps: seq<string>)
    ensures |seps| == 5 - Rank(u)
  {
    match u
    case Days => [":", ":", ":", ":", ":"]
    case Hours => ["::", "", ":", ":"]
    case Minutes => [":", ":", ":"]
    case Seconds => [":", ":"]
    case Milliseconds => [":"]
    case Microseconds => []
  }

  /**
   * The first field in plain decimal, and after it every later field as `{:02}`,
   * preceded by its separator.
   */
  function Render(fields: seq<nat>, seps: seq<string>): string
    requires |fields| == |seps| + 1
    decreases |seps|
  {
    if seps == [] then Decimal(fields[0])
    else Render(fields[..|fields| - 1], seps[..|seps| - 1]) + seps[|seps| - 1] + Pad2(fields[|fields| - 1])
  }

  /**
   * In the numeric format, the first nonzero unit among days, hours, minutes, seconds
   * and milliseconds selects the template: the result is that unit's count followed by
   * the count of every finer unit, and no coarser unit appears.  When all five are zero
   * no template applies.
   */
  lemma NumericSelectsLeadingUnit(b: Breakdown)
    ensures NumericTemplate(b).Some? <==> Leading(b).Some?
    ensures Leading(b).Some? ==>
      NumericTemplate(b) == Some(Render(FieldsFrom(b, Leading(b).value), NumericSeparators(Leading(b).value)))
  {
    match Leading(b)
    case None =>
    case Some(u) =>
      match u
      case Days => RenderDays(b);
      case Hours => RenderHours(b);
      case Minutes => RenderMinutes(b);
      case Seconds => RenderSeconds(b);
      case Milliseconds => RenderMilliseconds(b);
  }

  // The templates written as renderings; each step adds one field at the end.

  lemma RenderMilliseconds(b: Breakdown)
    ensures Render(FieldsFrom(b, Milliseconds), NumericSeparators(Milliseconds))
      == Decimal(b.millisecs) + ":" + Pad2(b.microsecs)
  {
    assert [b.millisecs, b.microsecs][..1] == [b.millisecs];
    assert [":"][..0] == [];
  }

  lemma RenderSeconds(b: Breakdown)
    ensures Render(FieldsFrom(b, Seconds), NumericSeparators(Seconds))
      == Decimal(b.secs) + ":" + Pad2(b.millisecs) + ":" + Pad2(b.microsecs)
  {
    RenderMilliseconds(Breakdown(0, 0, 0, 0, b.secs, b.millisecs));
    assert [b.secs, b.millisecs, b.microsecs][..2] == [b.secs, b.millisecs];
    assert [":", ":"][..1] == [":"];
  }

  lemma RenderMinutes(b: Breakdown)
    ensures Render(FieldsFrom(b, Minutes), NumericSeparators(Minutes))
      == Decimal(b.minutes) + ":" + Pad2(b.secs) + ":" + Pad2(b.millisecs) + ":" + Pad2(b.microsecs)
  {
    RenderSeconds(Breakdown(0, 0, 0, b.minutes, b.secs, b.millisecs));
    assert [b.minutes, b.secs, b.millisecs, b.microsecs][..3] == [b.minutes, b.secs, b.millisecs];
    assert [":", ":", ":"][..2] == [":", ":"];
  }

  lemma RenderHours(b: Breakdown)
    ensures Render(FieldsFrom(b, Hours), NumericSeparators(Hours))
      == Decimal(b.hours) + "::" + Pad2(b.minutes) + Pad2(b.secs) + ":" + Pad2(b.millisecs) + ":" + Pad2(b.microsecs)
  {
    var r1 := Render([b.hours], []);
    RenderSnoc([b.hours], [], b.minutes, "::");
    var r2 := Render([b.hours, b.minutes], ["::"]);
    assert r2 == r1 + "::" + Pad2(b.minutes) by {
      assert [b.hours] + [b.minutes] == [b.hours, b.minutes];
    }
    RenderSnoc([b.hours, b.minutes], ["::"], b.secs, "");
    var r3 := Render([b.hours, b.minutes, b.secs], ["::", ""]);
    assert r3 == r2 + Pad2(b.secs) by {
      assert [b.hours, b.minutes] + [b.secs] == [b.hours, b.minutes, b.secs];
      assert ["::"] + [""] == ["::", ""];
      assert r2 + "" == r2;
    }
    RenderSnoc([b.hours, b.minutes, b.secs], ["::", ""], b.millisecs, ":");
    var r4 := Render([b.hours, b.minutes, b.secs, b.millisecs], ["::", "", ":"]);
    assert r4 == r3 + ":" + Pad2(b.millisecs) by {
      assert [b.hours, b.minutes, b.secs] + [b.millisecs] == [b.hours, b.minutes, b.secs, b.millisecs];
      assert ["::", ""] + [":"] == ["::", "", ":"];
    }
    RenderSnoc([b.hours, b.minutes, b.secs, b.millisecs], ["::", "", ":"], b.microsecs, ":");
    assert [b.hours, b.minutes, b.secs, b.millisecs] + [b.microsecs] == FieldsFrom(b, Hours);
    assert ["::", "", ":"] + [":"] == NumericSeparators(Hours);
  }

  /** Rendering one more field appends its separator and its padded count. */
  lemma RenderSnoc(fields: seq<nat>, seps: seq<string>, x: nat, sep: string)
    requires |fields| == |seps| + 1
    ensures Render(fields + [x], seps + [sep]) == Render(fields, seps) + sep + Pad2(x)
  {
    assert (fields + [x])[..|fields|] == fields;
    assert (seps + [sep])[..|seps|] == seps;
  }

  lemma RenderDays(b: Breakdown)
    ensures Render(FieldsFrom(b, Days), NumericSeparators(Days))
      == Decimal(b.days) + ":" + Pad2(b.hours) + ":" + Pad2(b.minutes) + ":" + Pad2(b.secs) + ":" + Pad2(b.millisecs) + ":" + Pad2(b.microsecs)
  {
    RenderMinutes(Breakdown(0, 0, b.days, b.hours, b.minutes, b.secs));
    RenderTwoMore(b);
  }

  /** The day template is the minute template over the coarser fields, with two more at the end. */
  lemma RenderTwoMore(b: Breakdown)
    ensures Render(FieldsFrom(b, Days), NumericSeparators(Days))
      == Render([b.days, b.hours, b.minutes, b.secs], [":", ":", ":"]) + ":" + Pad2(b.millisecs) + ":" + Pad2(b.microsecs)
  {
    var fs := [b.days, b.hours, b.minutes, b.secs, b.millisecs, b.microsecs];
    var seps := [":", ":", ":", ":", ":"];
    assert fs[..5] == fs[..|fs| - 1] && seps[..4] == seps[..|seps| - 1];
    assert fs[..5][..4] == [b.days, b.hours, b.minutes, b.secs] && seps[..4][..3] == [":", ":", ":"];
  }

  /**
   * Below one millisecond the numeric format has no template: the text path runs with
   * the numeric format, whose suffix is the `"<Unknown time format>"` default, and the
   * count appears only when the output unit is microseconds.
   */
  lemma NumericBelowMillisecond(d: uint64, o: TimeUnit)
    requires d < MILLISECONDS
    ensures TimeString(d, o, Numeric) == if o == Microseconds && d != 0 then Decimal(d) + UNKNOWN_FORMAT else ""
  {
    SplitBelowMillisecond(d);
    TextPath(d, o, Numeric);
    TextBelowMillisecond(d, o);
    if o == Microseconds && d != 0 {
      EndsInClosingBracket(Decimal(d));
    }
  }

  lemma TextBelowMillisecond(d: nat, o: TimeUnit)
    requires d < MILLISECONDS
    ensures TextUpTo(Breakdown(0, 0, 0, 0, 0, d), o, Numeric) == if o == Microseconds && d != 0 then Decimal(d) + UNKNOWN_FORMAT else ""
  {
    var b := Breakdown(0, 0, 0, 0, 0, d);
    if o == Microseconds {
      TextZeroUnits(b, Milliseconds, Numeric);
      assert TextUpTo(b, o, Numeric) == "" + UnitText(b, Microseconds, Numeric);
      assert ToUint32(d) == d;
    } else {
      TextZeroUnits(b, o, Numeric);
    }
  }

  lemma SplitBelowMillisecond(d: uint64)
    requires d < MILLISECONDS
    ensures Split(d) == Breakdown(0, 0, 0, 0, 0, d)
  {
    var b := Breakdown(0, 0, 0, 0, 0, d);
    assert b.Total() == d;
    SplitOfTotal(b);
  }

  lemma EndsInClosingBracket(s: string)
    ensures TrimRight(s + UNKNOWN_FORMAT) == s + UNKNOWN_FORMAT
  {
    var t := s + UNKNOWN_FORMAT;
    assert t[|t| - 1] == UNKNOWN_FORMAT[|UNKNOWN_FORMAT| - 1] == '>';
    TrimRightKeeps(t);
  }

  /** Outside the numeric templates the result is the trimmed text up to the output unit. */
  lemma TextPath(d: uint64, o: TimeUnit, f: TimeFormat)
    requires f != Numeric || NumericTemplate(Split(d)).None?
    ensures TimeString(d, o, f) == TrimRight(TextUpTo(Split(d), o, f))
  {
  }

  /** Units whose counts are zero contribute no text. */
  lemma {:induction false} TextZeroUnits(b: Breakdown, o: TimeUnit, f: TimeFormat)
    requires forall v :: Rank(v) <= Rank(o) ==> b.Count(v) == 0
    ensures TextUpTo(b, o, f) == ""
    decreases Rank(o)
  {
    if o != Days {
      TextZeroUnits(b, Coarser(o), f);
    }
  }

  // ---------------------------------------------------------------------------
  // Text formats

  /**
   * A coarser output unit keeps a prefix of the text of a finer one: the rendering is
   * cut off after the output unit, and the finer units only add text after it.  When
   * the units between the two are all zero the texts are the same.
   */
  lemma {:induction false} TextUpToPrefix(b: Breakdown, o1: TimeUnit, o2: TimeUnit, f: TimeFormat)
    requires Rank(o1) <= Rank(o2)
    ensures TextUpTo(b, o1, f) <= TextUpTo(b, o2, f)
    ensures (forall v :: Rank(o1) < Rank(v) <= Rank(o2) ==> b.Count(v) == 0) ==> TextUpTo(b, o1, f) == TextUpTo(b, o2, f)
    decreases Rank(o2)
  {
    if Rank(o1) < Rank(o2) {
      var c := Coarser(o2);
      TextUpToPrefix(b, o1, c, f);
      if forall v :: Rank(o1) < Rank(v) <= Rank(o2) ==> b.Count(v) == 0 {
        assert b.Count(o2) == 0;
      }
    } else {
      assert o1 == o2;
    }
  }

  /** Every piece starts with the decimal text of its count. */
  lemma PieceStartsWithCount(n: nat, u: TimeUnit, f: TimeFormat)
    ensures Piece(n, u, f)[..|Decimal(n)|] == Decimal(n)
  {
  }

  /** In the full-text format a unit takes its singular name exactly when its count is 1. */
  lemma FullTextSingularIffOne(n: nat, u: TimeUnit)
    ensures Piece(n, u, FullText) == Decimal(n) + FullSuffix(u, false) <==> n == 1
  {
    if Piece(n, u, FullText) == Decimal(n) + FullSuffix(u, false) {
      assert FullSuffix(u, n != 1) == FullSuffix(u, false);
    }
  }

  /** A zero duration renders as the empty string in every format and at every output unit. */
  lemma TimeStringZero(o: TimeUnit, f: TimeFormat)
    ensures TimeString(0, o, f) == ""
  {
    var b := Split(0);
    assert b == Breakdown(0, 0, 0, 0, 0, 0) by {
      SplitOfTotal(Breakdown(0, 0, 0, 0, 0, 0));
    }
    TextZeroUnits(b, o, f);
  }

  /** The last character of a padded or plain count is a digit. */
  lemma NumericEndsInDigit(b: Breakdown)
    requires NumericTemplate(b).Some?
    ensures |NumericTemplate(b).value| > 0 && IsDigit(NumericTemplate(b).value[|NumericTemplate(b).value| - 1])
  {
    var t := NumericTemplate(b).value;
    var last := if b.days != 0 || b.hours != 0 || b.minutes != 0 || b.secs != 0 || b.millisecs != 0 then Pad2(b.microsecs) else Decimal(b.microsecs);
    assert |last| > 0 && IsDigit(last[|last| - 1]);
    assert t[|t| - 1] == last[|last| - 1];
  }

  /** A string that is empty or ends in a character other than white space. */
  predicate NoTrailingSpace(s: string) {
    s == [] || !IsSpace(s[|s| - 1])
  }

  /** No format leaves white space at the end of the result. */
  lemma TimeStringNoTrailingSpace(d: uint64, o: TimeUnit, f: TimeFormat)
    ensures NoTrailingSpace(TimeString(d, o, f))
  {
    RenderNoTrailingSpace(Split(d), o, f);
  }

  /** The rendering of a breakdown does not end in white space. */
  lemma RenderNoTrailingSpace(b: Breakdown, o: TimeUnit, f: TimeFormat)
    ensures NoTrailingSpace(RenderBreakdown(b, o, f))
  {
    if f == Numeric && NumericTemplate(b).Some? {
      NumericNoTrailingSpace(b);
    } else {
      TrimmedTextNoTrailingSpace(b, o, f);
    }
  }

  /** The numeric format ends in a digit, never in white space. */
  lemma NumericNoTrailingSpace(b: Breakdown)
    requires NumericTemplate(b).Some?
    ensures NoTrailingSpace(NumericTemplate(b).value)
  {
    NumericEndsInDigit(b);
  }

  /** The trimmed text ends in a character other than white space, if it is not empty. */
  lemma TrimmedTextNoTrailingSpace(b: Breakdown, o: TimeUnit, f: TimeFormat)
    ensures NoTrailingSpace(TrimRight(TextUpTo(b, o, f)))
  {
  }

  /** The text up to microseconds, unit by unit. */
  lemma TextThroughMicroseconds(b: Breakdown, f: TimeFormat)
    ensures TextUpTo(b, Microseconds, f) == UnitText(b, Days, f) + UnitText(b, Hours, f) + UnitText(b, Minutes, f)
      + UnitText(b, Seconds, f) + UnitText(b, Milliseconds, f) + UnitText(b, Microseconds, f)
  {
    TextThroughSeconds(b, f);
    assert TextUpTo(b, Milliseconds, f) == TextUpTo(b, Seconds, f) + UnitText(b, Milliseconds, f);
  }

  /** The text up to seconds, unit by unit. */
  lemma TextThroughSeconds(b: Breakdown, f: TimeFormat)
    ensures TextUpTo(b, Seconds, f) == UnitText(b, Days, f) + UnitText(b, Hours, f) + UnitText(b, Minutes, f)
      + UnitText(b, Seconds, f)
  {
    assert TextUpTo(b, Hours, f) == UnitText(b, Days, f) + UnitText(b, Hours, f);
    assert TextUpTo(b, Minutes, f) == TextUpTo(b, Hours, f) + UnitText(b, Minutes, f);
  }

  /** `1d 1h 1m 1s 1ms 1us`, with the output cut at microseconds. */
  lemma ShortTextExample()
    ensures TimeString(90061001001, Microseconds, ShortText) == "1d 1h 1m 1s 1ms 1us"
  {
    var b := Breakdown(1, 1, 1, 1, 1, 1);
    assert b.Total() == 90061001001;
    ShortTextOnes(b);
    TextRendering(90061001001, b, Microseconds, ShortText, "1d 1h 1m 1s 1ms 1us");
  }

  lemma ShortTextOnes(b: Breakdown)
    requires b == Breakdown(1, 1, 1, 1, 1, 1)
    ensures TextUpTo(b, Microseconds, ShortText) == "1d 1h 1m 1s 1ms 1us "
  {
    TextThroughMicroseconds(b, ShortText);
    assert ToUint32(1) == 1 && Decimal(1) == "1";
    var t1 := UnitText(b, Days, ShortText);
    assert t1 == "1d ";
    var t2 := t1 + UnitText(b, Hours, ShortText);
    assert t2 == "1d 1h ";
    var t3 := t2 + UnitText(b, Minutes, ShortText);
    assert t3 == "1d 1h 1m ";
    var t4 := t3 + UnitText(b, Seconds, ShortText);
    assert t4 == "1d 1h 1m 1s ";
    var t5 := t4 + UnitText(b, Milliseconds, ShortText);
    assert t5 == "1d 1h 1m 1s 1ms ";
    var t6 := t5 + UnitText(b, Microseconds, ShortText);
    assert t6 == "1d 1h 1m 1s 1ms 1us ";
  }

  /**
   * A text-format rendering: when the units of a normal breakdown, up to the output
   * unit, give `t` and one trailing space, the duration they add up to renders as `t`.
   */
  lemma TextRendering(d: uint64, b: Breakdown, o: TimeUnit, f: TimeFormat, t: string)
    requires f != Numeric && Normal(b) && b.Total() == d
    requires TextUpTo(b, o, f) == t + " " && t != [] && !IsSpace(t[|t| - 1])
    ensures TimeString(d, o, f) == t
  {
    SplitOfTotal(b);
    TextPath(d, o, f);
    TrimOneSpace(t);
  }

  /** Trimming a text that ends in one space after a non-space character drops that space. */
  lemma TrimOneSpace(t: string)
    requires t != [] && !IsSpace(t[|t| - 1])
    ensures TrimRight(t + " ") == t
  {
    assert (t + " ")[..|t + " "| - 1] == t;
    TrimRightKeeps(t);
  }

  /** With the default output unit (seconds) the millisecond and microsecond parts are dropped. */
  lemma FullTextExample()
    ensures TimeString(180062003004, Seconds, FullText) == "2 Days 2 Hours 1 Minute 2 Seconds"
  {
    var b := Breakdown(2, 2, 1, 2, 3, 4);
    assert b.Total() == 180062003004;
    FullTextCounts(b);
    TextRendering(180062003004, b, Seconds, FullText, "2 Days 2 Hours 1 Minute 2 Seconds");
  }

  lemma FullTextCounts(b: Breakdown)
    requires b == Breakdown(2, 2, 1, 2, 3, 4)
    ensures TextUpTo(b, Seconds, FullText) == "2 Days 2 Hours 1 Minute 2 Seconds "
  {
    TextThroughSeconds(b, FullText);
    FullTextPieces(b);
    FullTextJoined();
  }

  lemma FullTextJoined()
    ensures "2 Days " + "2 Hours " + "1 Minute " + "2 Seconds " == "2 Days 2 Hours 1 Minute 2 Seconds "
  {
    var t1: string := "2 Days ";
    var t2: string := t1 + "2 Hours ";
    assert t2 == "2 Days 2 Hours ";
    var t3: string := t2 + "1 Minute ";
    assert t3 == "2 Days 2 Hours 1 Minute ";
  }

  lemma FullTextPieces(b: Breakdown)
    requires b == Breakdown(2, 2, 1, 2, 3, 4)
    ensures UnitText(b, Days, FullText) == "2 Days "
    ensures UnitText(b, Hours, FullText) == "2 Hours "
    ensures UnitText(b, Minutes, FullText) == "1 Minute "
    ensures UnitText(b, Seconds, FullText) == "2 Seconds "
  {
    assert ToUint32(1) == 1 && Decimal(1) == "1";
    assert ToUint32(2) == 2 && Decimal(2) == "2";
    assert UnitText(b, Days, FullText) == "2" + " Days ";
    assert UnitText(b, Hours, FullText) == "2" + " Hours ";
    assert UnitText(b, Minutes, FullText) == "1" + " Minute ";
    assert UnitText(b, Seconds, FullText) == "2" + " Seconds ";
  }

  /** The hours template: `1::0203:04:05` for 1 h 2 min 3 s 4 ms 5 us. */
  lemma NumericHoursExample()
    ensures TimeString(3723004005, Seconds, Numeric) == "1::0203:04:05"
  {
    var b := Breakdown(0, 1, 2, 3, 4, 5);
    assert b.Total() == 3723004005;
    SplitOfTotal(b);
    assert Decimal(1) == "1" && Pad2(2) == "02" && Pad2(3) == "03" && Pad2(4) == "04" && Pad2(5) == "05";
  }

  /** `a * b` in `uint64`: the product modulo 2^64. */
  function MulUint64(a: uint64, b: uint64): uint64 {
    (a * b) % UINT64_LIMIT
  }

  /** `ToTimeString<Milliseconds>`: scaled to microseconds in `uint64`. */
  method ToTimeStringMilliseconds(durationTime: uint64, timeOutput: TimeUnit, timeFormat: TimeFormat) returns (s: string)
    ensures s == TimeString((durationTime * MILLISECONDS) % UINT64_LIMIT, timeOutput, timeFormat)
  {
    s := ToTimeString(MulUint64(durationTime, MILLISECONDS), timeOutput, timeFormat);
  }

  /** `ToTimeString<Seconds>`: scaled to microseconds in `uint64`. */
  method ToTimeStringSeconds(durationTime: uint64, timeOutput: TimeUnit, timeFormat: TimeFormat) returns (s: string)
    ensures s == TimeString((durationTime * SECONDS) % UINT64_LIMIT, timeOutput, timeFormat)
  {
    s := ToTimeString(MulUint64(durationTime, SECONDS), timeOutput, timeFormat);
  }

  /** `ToTimeString<Minutes>`: scaled to microseconds in `uint64`. */
  method ToTimeStringMinutes(durationTime: uint64, timeOutput: TimeUnit, timeFormat: TimeFormat) returns (s: string)
    ensures s == TimeString((durationTime * MINUTES) % UINT64_LIMIT, timeOutput, timeFormat)
  {
    s := ToTimeString(MulUint64(durationTime, MINUTES), timeOutput, timeFormat);
  }

  /** The conversion of a signed `int64` to `uint64`: two's complement, so a negative value wraps. */
  function Int64ToUint64(x: int64): (u: uint64)
    ensures 0 <= x ==> u == x
    ensures x < 0 ==> u == UINT64_LIMIT + x
  {
    x % UINT64_LIMIT
  }

  /** `ToTimeString(Microseconds)`: the signed `int64` count of a `std::chrono` duration, as `uint64`. */
  method ToTimeStringDuration(count: int64, timeOutput: TimeUnit, timeFormat: TimeFormat) returns (s: string)
    ensures s == TimeString(Int64ToUint64(count), timeOutput, timeFormat)
  {
    s := ToTimeString(Int64ToUint64(count), timeOutput, timeFormat);
  }

  /**
   * A whole number of seconds that fits in `uint64` once scaled has no millisecond or
   * microsecond part, so no output unit finer than seconds adds anything.
   */
  lemma WholeSecondsHaveNoFraction(d: uint64, o: TimeUnit, f: TimeFormat)
    requires d * SECONDS < UINT64_LIMIT
    ensures Split(MulUint64(d, SECONDS)).millisecs == 0 && Split(MulUint64(d, SECONDS)).microsecs == 0
    ensures Rank(o) >= Rank(Seconds) ==> TextUpTo(Split(MulUint64(d, SECONDS)), o, f) == TextUpTo(Split(MulUint64(d, SECONDS)), Seconds, f)
  {
    var b := Split(MulUint64(d, SECONDS));
    assert MulUint64(d, SECONDS) == d * SECONDS;
    NoFraction(b, d);
    if Rank(o) >= Rank(Seconds) {
      TextUpToPrefix(b, Seconds, o, f);
    }
  }

  /** A normal breakdown that adds up to whole seconds has no finer part. */
  lemma NoFraction(b: Breakdown, d: nat)
    requires Normal(b) && b.Total() == d * SECONDS
    ensures b.millisecs == 0 && b.microsecs == 0
  {
    var rest := b.secs + 60 * (b.minutes + 60 * (b.hours + 24 * b.days));
    NestedTotal(b);
    assert b.microsecs + 1000 * (b.millisecs + 1000 * rest) == 0 + 1000 * (0 + 1000 * d);
    PlaceValue(b.microsecs, b.millisecs + 1000 * rest, 0, 1000 * d, 1000);
    PlaceValue(b.millisecs, rest, 0, d, 1000);
  }

  /**
   * The minute wrapper wraps around: 307445734562 minutes is just over 2^64
   * microseconds, and renders as ten seconds.
   */
  lemma MinutesWrapExample()
    ensures MulUint64(307445734562, MINUTES) == 10448384
    ensures TimeString(10448384, Seconds, ShortText) == "10s"
  {
    assert MulUint64(307445734562, MINUTES) == 10448384 by {
      assert 307445734562 * MINUTES == UINT64_LIMIT + 10448384;
    }
    var b := Breakdown(0, 0, 0, 10, 448, 384);
    assert b.Total() == 10448384;
    TenSecondsText(b);
    TextRendering(10448384, b, Seconds, ShortText, "10s");
  }

  /** Ten seconds and a fraction, up to seconds in short text, is `10s `. */
  lemma TenSecondsText(b: Breakdown)
    requires b == Breakdown(0, 0, 0, 10, 448, 384)
    ensures TextUpTo(b, Seconds, ShortText) == "10s "
  {
    TextThroughSeconds(b, ShortText);
    assert Decimal(10) == "10" by {
      assert Decimal(1) == "1" && Decimal(0) == "0";
    }
    assert ToUint32(10) == 10;
  }

  /** A negative `int64` count is read as a huge `uint64` one. */
  lemma NegativeCountWraps()
    ensures Int64ToUint64(-1) == UINT64_LIMIT - 1
    ensures Split(Int64ToUint64(-1)).days == MAX_DAYS
  {
  }
}
