/**
  Reminder offsets such as "PT0S", "-PT1H30M" or "P1D": the validator of
  internal/event/event_validator.go says which strings are offsets, the parser of
  internal/reminder/recurrence.go says how long they are.
*/
module Offsets {
  import opened Common
  import opened Numerals

  /** An offset taken apart; an absent part is "". */
  datatype Offset =
    | Time(negative: bool, hours: string, minutes: string, seconds: string)
    | Days(negative: bool, days: string)

  predicate WellFormed(x: Offset) {
    match x
    case Time(_, h, m, s) => Digits(h) && Digits(m) && Digits(s) && (h != "" || m != "" || s != "")
    case Days(_, d) => Digits(d) && d != ""
  }

  function Part(digits: string, unit: char): string {
    if digits == "" then "" else digits + [unit]
  }

  function Sign(negative: bool): string {
    if negative then "-" else ""
  }

  function Render(x: Offset): string {
    match x
    case Time(n, h, m, s) => Sign(n) + ("PT" + (Part(h, 'H') + (Part(m, 'M') + Part(s, 'S'))))
    case Days(n, d) => Sign(n) + ("P" + Part(d, 'D'))
  }

  /** The validator: the strings its pattern describes. */
  ghost predicate IsOffset(spec: string) {
    exists x :: WellFormed(x) && Render(x) == spec
  }

  // ----- the parser -----

  function DigitRun(s: string): (n: nat)
    ensures n <= |s| && Digits(s[..n]) && (n < |s| ==> !Digit(s[n]))
  {
    if s == "" || !Digit(s[0]) then 0
    else
      var n := DigitRun(s[1..]);
      assert s[..n + 1] == [s[0]] + s[1..][..n];
      n + 1
  }

  /** A number followed by its unit, if the text starts with one, and what comes after it. */
  function TakePart(s: string, unit: char): (string, string) {
    var n := DigitRun(s);
    if 0 < n < |s| && s[n] == unit then (s[..n], s[n + 1..]) else ("", s)
  }

  function ScanTime(negative: bool, t: string): Option<Offset> {
    var (h, t1) := TakePart(t, 'H');
    var (m, t2) := TakePart(t1, 'M');
    var (s, t3) := TakePart(t2, 'S');
    if t3 == "" && (h != "" || m != "" || s != "") then Some(Time(negative, h, m, s)) else None
  }

  function ScanDays(negative: bool, t: string): Option<Offset> {
    var (d, rest) := TakePart(t, 'D');
    if rest == "" && d != "" then Some(Days(negative, d)) else None
  }

  function Scan(spec: string): Option<Offset> {
    var negative := spec != "" && spec[0] == '-';
    var t := if negative then spec[1..] else spec;
    if t == "" || t[0] != 'P' then None
    else if |t| > 1 && t[1] == 'T' then ScanTime(negative, t[2..])
    else ScanDays(negative, t[1..])
  }

  const MAX_INT64 := 0x7FFF_FFFF_FFFF_FFFF
  const NANOS_PER_SECOND := 1_000_000_000

  /** strconv.Atoi with its error ignored: out of range gives the largest value. */
  function Count(digits: string): nat
    requires Digits(digits)
  {
    var n := Value(digits);
    if n > MAX_INT64 then MAX_INT64 else n
  }

  /** A time.Duration wraps around at 64 bits. */
  function Wrap(n: int): int {
    (n + MAX_INT64 + 1) % (2 * (MAX_INT64 + 1)) - MAX_INT64 - 1
  }

  function Duration(x: Offset): int
    requires WellFormed(x)
  {
    var d :=
      match x
      case Time(_, h, m, s) => Wrap((Count(h) * 3600 + Count(m) * 60 + Count(s)) * NANOS_PER_SECOND)
      case Days(_, d) => Wrap(Count(d) * 86400 * NANOS_PER_SECOND);
    if x.negative then Wrap(-d) else d
  }

  /** Whole seconds, cut off towards zero. */
  function Seconds(d: int): int {
    if d >= 0 then d / NANOS_PER_SECOND else -((-d) / NANOS_PER_SECOND)
  }

  /** FireAt of an occurrence: nothing when the offset does not parse. */
  function FireAt(occurrenceAt: int, spec: string): (r: Option<int>)
    ensures r.Some? <==> Scan(spec).Some?
  {
    var x := Scan(spec);
    if x.None? then None
    else
      ScanIsSound(spec);
      Some(occurrenceAt + Seconds(Duration(x.value)))
  }

  /** An offset is the same distance from every occurrence. */
  lemma FireAtShifts(a: int, b: int, spec: string)
    ensures FireAt(a, spec).Some? ==> FireAt(b, spec) == Some(FireAt(a, spec).value + b - a)
  {
  }

  // ----- parser and validator agree -----

  lemma TakePartIsSound(s: string, unit: char)
    ensures
      var (digits, rest) := TakePart(s, unit);
      Digits(digits) && s == Part(digits, unit) + rest
  {
  }

  lemma ScanTimeIsSound(negative: bool, t: string)
    ensures
      var x := ScanTime(negative, t);
      x.Some? ==> x.value.Time? && x.value.negative == negative && WellFormed(x.value)
                  && t == Part(x.value.hours, 'H') + (Part(x.value.minutes, 'M') + Part(x.value.seconds, 'S'))
  {
    hide TakePart, Part;
    var (h, t1) := TakePart(t, 'H');
    var (m, t2) := TakePart(t1, 'M');
    var (s, t3) := TakePart(t2, 'S');
    TakePartIsSound(t, 'H');
    TakePartIsSound(t1, 'M');
    TakePartIsSound(t2, 'S');
    assert Part(s, 'S') + "" == Part(s, 'S');
  }

  lemma ScanIsSound(spec: string)
    ensures
      var x := Scan(spec);
      x.Some? ==> WellFormed(x.value) && Render(x.value) == spec
  {
    hide TakePart, Part, ScanTime;
    var negative := spec != "" && spec[0] == '-';
    var t := if negative then spec[1..] else spec;
    assert spec == Sign(negative) + t;
    if Scan(spec).Some? {
      if |t| > 1 && t[1] == 'T' {
        ScanTimeIsSound(negative, t[2..]);
        assert t == "PT" + t[2..];
      } else {
        TakePartIsSound(t[1..], 'D');
        assert t[1..] == Part(TakePart(t[1..], 'D').0, 'D') + "" == Part(TakePart(t[1..], 'D').0, 'D');
        assert t == "P" + t[1..];
      }
    }
  }

  /** No number with this unit starts the text: it is over, or the number has another unit. */
  predicate StartsOtherwise(s: string, unit: char) {
    var n := DigitRun(s);
    s == "" || (n < |s| && s[n] != unit)
  }

  lemma {:induction false} RunOfDigits(digits: string, rest: string)
    requires Digits(digits) && (rest == "" || !Digit(rest[0]))
    ensures DigitRun(digits + rest) == |digits|
  {
    if digits == "" {
      assert digits + rest == rest;
    } else {
      assert (digits + rest)[1..] == digits[1..] + rest;
      RunOfDigits(digits[1..], rest);
    }
  }

  lemma TakePartOfPart(digits: string, unit: char, rest: string)
    requires Digits(digits) && !Digit(unit) && StartsOtherwise(rest, unit)
    ensures TakePart(Part(digits, unit) + rest, unit) == (digits, rest)
  {
    if digits == "" {
      assert Part(digits, unit) + rest == rest;
    } else {
      assert Part(digits, unit) + rest == digits + ([unit] + rest);
      RunOfDigits(digits, [unit] + rest);
    }
  }

  lemma PartStartsOtherwise(digits: string, unit: char, rest: string, other: char)
    requires Digits(digits) && !Digit(unit) && unit != other && StartsOtherwise(rest, other)
    ensures StartsOtherwise(Part(digits, unit) + rest, other)
  {
    if digits == "" {
      assert Part(digits, unit) + rest == rest;
    } else {
      assert Part(digits, unit) + rest == digits + ([unit] + rest);
      RunOfDigits(digits, [unit] + rest);
    }
  }

  lemma ScanTimeOfParts(negative: bool, h: string, m: string, s: string)
    requires WellFormed(Time(negative, h, m, s))
    ensures ScanTime(negative, Part(h, 'H') + (Part(m, 'M') + Part(s, 'S'))) == Some(Time(negative, h, m, s))
  {
    hide TakePart, Part;
    var t3 := Part(s, 'S');
    assert t3 == t3 + "";
    TakePartOfPart(s, 'S', "");
    PartStartsOtherwise(s, 'S', "", 'M');
    PartStartsOtherwise(s, 'S', "", 'H');
    TakePartOfPart(m, 'M', t3);
    PartStartsOtherwise(m, 'M', t3, 'H');
    TakePartOfPart(h, 'H', Part(m, 'M') + t3);
  }

  /** Taking apart what was put together gives it back. */
  lemma ScanOfRender(x: Offset)
    requires WellFormed(x)
    ensures Scan(Render(x)) == Some(x)
  {
    hide TakePart, Part, ScanTime;
    var spec := Render(x);
    match x
    case Time(n, h, m, s) =>
      ScanTimeOfParts(n, h, m, s);
      var t := "PT" + (Part(h, 'H') + (Part(m, 'M') + Part(s, 'S')));
      assert t[2..] == Part(h, 'H') + (Part(m, 'M') + Part(s, 'S'));
      assert (if n then spec[1..] else spec) == t;
    case Days(n, d) =>
      TakePartOfPart(d, 'D', "");
      assert Part(d, 'D') + "" == Part(d, 'D');
      var t := "P" + Part(d, 'D');
      assert t[1..] == Part(d, 'D');
      assert (if n then spec[1..] else spec) == t;
      DayPartIsNumber(d);
  }

  lemma DayPartIsNumber(d: string)
    requires Digits(d) && d != ""
    ensures Part(d, 'D')[0] == d[0] && Digit(d[0])
  {
  }

  /** The parser accepts exactly what the validator does, so no accepted rule fails on its offsets. */
  lemma ParserAcceptsWhatValidatorDoes(spec: string)
    ensures IsOffset(spec) <==> Scan(spec).Some?
  {
    ScanIsSound(spec);
    if IsOffset(spec) {
      var x :| WellFormed(x) && Render(x) == spec;
      ScanOfRender(x);
    }
  }

  // ----- how long an offset is -----

  /** The number a part says; an absent part says 0. */
  ghost predicate PartReads(digits: string, n: nat) {
    if digits == "" then n == 0 else Reads(digits, n)
  }

  ghost predicate SpellsTime(spec: string, negative: bool, h: string, m: string, s: string, hours: nat, minutes: nat, seconds: nat) {
    && spec == Render(Time(negative, h, m, s)) && (h != "" || m != "" || s != "")
    && PartReads(h, hours) && PartReads(m, minutes) && PartReads(s, seconds)
  }

  ghost predicate SpellsDays(spec: string, negative: bool, d: string, days: nat) {
    spec == Render(Days(negative, d)) && Reads(d, days)
  }

  /** The offset is written as hours, minutes and seconds, or as days, that come to `length` seconds. */
  ghost predicate Spells(spec: string, negative: bool, length: nat) {
    || (exists h, m, s, hours: nat, minutes: nat, seconds: nat ::
          SpellsTime(spec, negative, h, m, s, hours, minutes, seconds) && length == 3600 * hours + 60 * minutes + seconds)
    || (exists d, days: nat :: SpellsDays(spec, negative, d, days) && length == 86400 * days)
  }

  function Off(at: int, negative: bool, length: nat): int {
    if negative then at - length else at + length
  }

  /** 2^63 nanoseconds, in whole seconds. */
  const MAX_LENGTH := 9_223_372_036

  lemma PartCounts(digits: string, n: nat)
    requires PartReads(digits, n)
    ensures Digits(digits)
    ensures Count(digits) == if n > MAX_INT64 then MAX_INT64 else n
  {
    if digits == "" {
      assert Count("") == 0;
    } else {
      ReadsIsDigits(digits, n);
      DigitsReadTheirValue(digits, n);
    }
  }

  /** The seconds left of a length that went through 64 bits of nanoseconds, and back when it is negative. */
  function Counted(negative: bool, l: int): int {
    var d := Wrap(l * NANOS_PER_SECOND);
    Seconds(if negative then Wrap(-d) else d)
  }

  /** A length in range is kept; one beyond comes out as something shorter. */
  lemma LengthIsKeptIffItFits(negative: bool, l: int)
    requires 0 <= l
    ensures l <= MAX_LENGTH ==> Counted(negative, l) == if negative then -l else l
    ensures -MAX_LENGTH <= Counted(negative, l) <= MAX_LENGTH
  {
  }

  lemma FireAtOfRender(at: int, x: Offset)
    requires WellFormed(x)
    ensures
      var l := match x
               case Time(_, h, m, s) => Count(h) * 3600 + Count(m) * 60 + Count(s)
               case Days(_, d) => Count(d) * 86400;
      FireAt(at, Render(x)) == Some(at + Counted(x.negative, l))
  {
    hide Wrap, Seconds, Count, Scan, Render;
    ScanOfRender(x);
  }

  /** `c` is what is counted for a length `l`. */
  lemma CountedIsOff(at: int, negative: bool, l: nat, c: int)
    requires 0 <= c && (l <= MAX_LENGTH ==> c == l)
    ensures at + Counted(negative, c) == Off(at, negative, l) <==> l <= MAX_LENGTH
  {
    hide Counted;
    LengthIsKeptIffItFits(negative, c);
  }

  lemma TimeCounts(h: string, m: string, s: string, hours: nat, minutes: nat, seconds: nat)
    requires PartReads(h, hours) && PartReads(m, minutes) && PartReads(s, seconds)
    ensures Digits(h) && Digits(m) && Digits(s)
    ensures
      var l, c := 3600 * hours + 60 * minutes + seconds, Count(h) * 3600 + Count(m) * 60 + Count(s);
      0 <= c && (l <= MAX_LENGTH ==> c == l)
  {
    hide Count, PartReads, Digits;
    PartCounts(h, hours);
    PartCounts(m, minutes);
    PartCounts(s, seconds);
  }

  lemma TimeIsOff(at: int, spec: string, negative: bool, h: string, m: string, s: string, hours: nat, minutes: nat, seconds: nat)
    requires SpellsTime(spec, negative, h, m, s, hours, minutes, seconds)
    ensures
      var l := 3600 * hours + 60 * minutes + seconds;
      FireAt(at, spec) == Some(Off(at, negative, l)) <==> l <= MAX_LENGTH
  {
    hide Count, FireAt, Counted, Render, PartReads, Digits, Off;
    TimeCounts(h, m, s, hours, minutes, seconds);
    FireAtOfRender(at, Time(negative, h, m, s));
    CountedIsOff(at, negative, 3600 * hours + 60 * minutes + seconds, Count(h) * 3600 + Count(m) * 60 + Count(s));
  }

  lemma DaysAreOff(at: int, spec: string, negative: bool, d: string, days: nat)
    requires SpellsDays(spec, negative, d, days)
    ensures FireAt(at, spec) == Some(Off(at, negative, 86400 * days)) <==> 86400 * days <= MAX_LENGTH
  {
    hide Count, FireAt, Counted, Render, Off;
    ReadsIsDigits(d, days);
    PartCounts(d, days);
    FireAtOfRender(at, Days(negative, d));
    CountedIsOff(at, negative, 86400 * days, Count(d) * 86400);
  }

  /**
    FireAt is as many seconds before or after the occurrence as the offset spells, if
    and only if those fit the 64 bits of nanoseconds they are counted in.
  */
  lemma FireAtIsOff(at: int, spec: string, negative: bool, length: nat)
    requires Spells(spec, negative, length)
    ensures FireAt(at, spec) == Some(Off(at, negative, length)) <==> length <= MAX_LENGTH
  {
    hide FireAt;
    if h, m, s, hours: nat, minutes: nat, seconds: nat :|
         SpellsTime(spec, negative, h, m, s, hours, minutes, seconds) && length == 3600 * hours + 60 * minutes + seconds {
      TimeIsOff(at, spec, negative, h, m, s, hours, minutes, seconds);
    } else {
      var d, days: nat :| SpellsDays(spec, negative, d, days) && length == 86400 * days;
      DaysAreOff(at, spec, negative, d, days);
    }
  }

  lemma PartSaysItsValue(digits: string)
    requires Digits(digits)
    ensures PartReads(digits, Value(digits))
  {
    if digits != "" {
      ReadsItsValue(digits);
    }
  }

  /** Every offset the parser takes spells a length. */
  lemma OffsetsSpell(spec: string) returns (negative: bool, length: nat)
    requires Scan(spec).Some?
    ensures Spells(spec, negative, length)
  {
    ScanIsSound(spec);
    var x := Scan(spec).value;
    negative := x.negative;
    match x
    case Time(_, h, m, s) =>
      PartSaysItsValue(h);
      PartSaysItsValue(m);
      PartSaysItsValue(s);
      assert SpellsTime(spec, negative, h, m, s, Value(h), Value(m), Value(s));
      length := 3600 * Value(h) + 60 * Value(m) + Value(s);
    case Days(_, d) =>
      ReadsItsValue(d);
      assert SpellsDays(spec, negative, d, Value(d));
      length := 86400 * Value(d);
  }

  /** As the source says: "-PT30M" is half an hour before, and "P1D" a day after. */
  lemma HalfAnHourBeforeAndADayAfter(at: int)
    ensures FireAt(at, "-PT30M") == Some(at - 1800) && FireAt(at, "P1D") == Some(at + 86400)
  {
    hide FireAt, SpellsTime, SpellsDays;
    WrittenSo();
    TimeIsOff(at, "-PT30M", true, "", "30", "", 0, 30, 0);
    DaysAreOff(at, "P1D", false, "1", 1);
  }

  lemma WrittenSo()
    ensures SpellsTime("-PT30M", true, "", "30", "", 0, 30, 0) && SpellsDays("P1D", false, "1", 1)
  {
    hide Reads;
    Thirty();
    assert Part("30", 'M') == "30M" && Part("1", 'D') == "1D";
    assert Render(Time(true, "", "30", "")) == "-PT30M";
    assert Render(Days(false, "1")) == "P1D";
  }

  lemma Thirty()
    ensures Reads("30", 30) && Reads("1", 1)
  {
    assert "30" == Zeros(0) + Decimal(30);
    assert "1" == Zeros(0) + Decimal(1);
  }
}
