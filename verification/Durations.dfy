/** RouterOS ages: the byte loop of `parseRouterOSDuration` against a grammar of
    segments. Durations are Go's signed 64-bit nanosecond counts, so sums and
    products wrap and `strconv.Atoi` refuses numerals beyond 64 bits. */
module Durations {
  import opened Text

  const MAX_INT64: int := 0x7FFF_FFFF_FFFF_FFFF
  const TWO_64: int := 0x1_0000_0000_0000_0000
  const SECOND: int := 1_000_000_000

  /** The 64-bit value Go keeps of an integer sum or product. */
  function Wrap(x: int): (r: int)
    ensures -MAX_INT64 - 1 <= r <= MAX_INT64
    ensures -MAX_INT64 - 1 <= x <= MAX_INT64 ==> r == x
  {
    (x + MAX_INT64 + 1) % TWO_64 - MAX_INT64 - 1
  }

  lemma WrapSum(a: int, b: int)
    ensures Wrap(Wrap(a) + Wrap(b)) == Wrap(a + b)
    ensures Wrap(Wrap(a) + b) == Wrap(a + b)
  {
    var qa := (a + MAX_INT64 + 1) / TWO_64;
    var qb := (b + MAX_INT64 + 1) / TWO_64;
    assert Wrap(a) == a - qa * TWO_64 && Wrap(b) == b - qb * TWO_64;
    WrapShift(a + b, -qa);
    WrapShift(a + b, -qa - qb);
  }

  lemma WrapShift(x: int, k: int)
    ensures Wrap(x + k * TWO_64) == Wrap(x)
  {
    var y := x + MAX_INT64 + 1;
    var q, r := y / TWO_64, y % TWO_64;
    assert y + k * TWO_64 == (q + k) * TWO_64 + r;
    DivModUnique(y + k * TWO_64, q + k, r);
  }

  lemma DivModUnique(x: int, q: int, r: int)
    requires x == q * TWO_64 + r && 0 <= r < TWO_64
    ensures x % TWO_64 == r
  {}

  predicate Digit(c: char) { '0' <= c <= '9' }

  predicate AllDigits(s: string) { forall c | c in s :: Digit(c) }

  predicate Numeral(s: string) { s != "" && AllDigits(s) }

  function DigitValue(c: char): (d: int)
    requires Digit(c)
    ensures 0 <= d <= 9
  {
    (c - '0') as int
  }

  /** The number a run of decimal digits denotes, leading zeros included. */
  function ValueOf(s: string): (v: int)
    requires AllDigits(s)
    ensures v >= 0
  {
    if s == "" then 0 else 10 * ValueOf(s[..|s| - 1]) + DigitValue(s[|s| - 1])
  }

  /** strconv.Atoi on a 64-bit platform: optional sign, decimal digits, range error. */
  function Atoi(s: string): Option<int> {
    var negative := s != "" && s[0] == '-';
    var body := if s != "" && (s[0] == '-' || s[0] == '+') then s[1..] else s;
    if !Numeral(body) then None
    else
      var v := if negative then -ValueOf(body) else ValueOf(body);
      if -MAX_INT64 - 1 <= v <= MAX_INT64 then Some(v) else None
  }

  /** Nanoseconds of a unit letter; 0 for a byte that is none. */
  function Unit(c: char): (u: int)
    ensures u >= 0
  {
    match c
    case 'w' => 7 * 24 * 3600 * SECOND
    case 'd' => 24 * 3600 * SECOND
    case 'h' => 3600 * SECOND
    case 'm' => 60 * SECOND
    case 's' => SECOND
    case _ => 0
  }

  // ---- The grammar: (digits unit)* digits? ----

  datatype Segment = Segment(digits: string, unit: char)

  predicate SegmentOk(g: Segment) { Numeral(g.digits) && Unit(g.unit) > 0 }

  predicate WellFormed(segments: seq<Segment>, tail: string) {
    AllDigits(tail) && forall g | g in segments :: SegmentOk(g)
  }

  function Print(segments: seq<Segment>, tail: string): string {
    if segments == [] then tail
    else segments[0].digits + [segments[0].unit] + Print(segments[1..], tail)
  }

  /** The exact sum of the segments, a bare tail counting as seconds. */
  function Nanos(segments: seq<Segment>, tail: string): (n: int)
    requires WellFormed(segments, tail)
    ensures n >= 0
  {
    if segments == [] then ValueOf(tail) * SECOND
    else
      assert SegmentOk(segments[0]);
      Scaled(segments[0].digits, segments[0].unit) + Nanos(segments[1..], tail)
  }

  function Scaled(digits: string, unit: char): (n: int)
    requires AllDigits(digits)
    ensures n >= 0
  {
    ValueOf(digits) * Unit(unit)
  }

  /** Every numeral is one that Atoi accepts. */
  predicate InRange(segments: seq<Segment>, tail: string)
    requires WellFormed(segments, tail)
  {
    ValueOf(tail) <= MAX_INT64 &&
    forall g | g in segments :: SegmentOk(g) && ValueOf(g.digits) <= MAX_INT64
  }

  // ---- The value of a duration text ----

  function DigitRun(s: string): (n: nat)
    ensures n <= |s| && AllDigits(s[..n])
    ensures n < |s| ==> !Digit(s[n])
  {
    if s != "" && Digit(s[0]) then
      var n := DigitRun(s[1..]);
      assert s[..n + 1] == [s[0]] + s[1..][..n];
      n + 1
    else 0
  }

  /** The one reading of a text by the grammar, if it has any. */
  function Tokens(s: string): (r: Option<(seq<Segment>, string)>)
    ensures r.Some? ==> WellFormed(r.value.0, r.value.1) && Print(r.value.0, r.value.1) == s
    decreases |s|
  {
    var n := DigitRun(s);
    if n == |s| then
      assert s[..n] == s;
      Some(([], s))
    else if n == 0 || Unit(s[n]) == 0 then None
    else
      match Tokens(s[n + 1..])
      case None => None
      case Some((rest, tail)) =>
        var segments := [Segment(s[..n], s[n])] + rest;
        assert segments[1..] == rest;
        assert s == s[..n] + [s[n]] + s[n + 1..];
        Some((segments, tail))
  }

  /** A reading with more segments in front of it. */
  function After(first: seq<Segment>, reading: Option<(seq<Segment>, string)>): Option<(seq<Segment>, string)> {
    match reading
    case None => None
    case Some((more, tail)) => Some((first + more, tail))
  }

  function Accept(reading: Option<(seq<Segment>, string)>): Option<int>
    requires reading.Some? ==> WellFormed(reading.value.0, reading.value.1)
  {
    if reading.None? || !InRange(reading.value.0, reading.value.1) then None
    else
      var total := Wrap(Nanos(reading.value.0, reading.value.1));
      if total == 0 then None else Some(total)
  }

  function SplitColons(s: string): (parts: seq<string>)
    ensures parts != []
    ensures ':' !in s ==> parts == [s]
  {
    if s == "" then [""]
    else
      var rest := SplitColons(s[1..]);
      if s[0] == ':' then [""] + rest
      else
        assert [s[0]] + s[1..] == s;
        [[s[0]] + rest[0]] + rest[1..]
  }

  /** hh:mm:ss, each part a signed integer. */
  function ColonForm(s: string): Option<int> {
    var parts := SplitColons(s);
    if |parts| != 3 then None
    else
      match (Atoi(parts[0]), Atoi(parts[1]), Atoi(parts[2]))
      case (Some(h), Some(m), Some(sec)) => Some(Wrap(h * Unit('h') + m * Unit('m') + sec * Unit('s')))
      case _ => None
  }

  /** What `parseRouterOSDuration` returns; None is any of its errors. */
  function DurationOf(s: string): Option<int> {
    if ':' in s then ColonForm(s) else Accept(Tokens(s))
  }

  /** `parseRouterOSAge`; `timestamp` stands for RFC 3339 parsing of the library. */
  function AgeOf(timestamp: string -> Option<int>, text: string, now: int): Option<int> {
    var value := Trim(text);
    if value == "" then None
    else match timestamp(value)
      case Some(t) => Some(if now - t < 0 then t - now else now - t)
      case None => DurationOf(value)
  }

  // ---- The loop ----

  /** What the loop has read after a prefix of the text: whole segments, then digits. */
  ghost predicate ReadSoFar(prefix: string, done: seq<Segment>, number: string, dur: int) {
    WellFormed(done, number) && InRange(done, "") && prefix == Print(done, number) && dur == Wrap(Nanos(done, ""))
  }

  method ParseDuration(value: string) returns (r: Option<int>)
    ensures r == DurationOf(value)
  {
    hide Wrap, Nanos, Print, Tokens, ValueOf, Atoi, InRange;
    if ':' in value {
      r := ParseColonForm(value);
      return;
    }
    var dur: int := 0;
    var number: string := "";
    ghost var done: seq<Segment> := [];
    NothingRead();
    assert value[..0] == "";
    for i := 0 to |value|
      invariant ReadSoFar(value[..i], done, number, dur)
    {
      var ch := value[i];
      assert value[..i + 1] == value[..i] + [ch];
      assert value == value[..i] + [ch] + value[i + 1..];
      if Digit(ch) {
        DigitRead(value[..i], done, number, dur, ch);
        number := number + [ch];
      } else {
        if Unit(ch) == 0 || number == "" {
          BadSegment(value[..i], done, number, dur, ch, value[i + 1..]);
          return None;
        }
        var v := Atoi(number);
        AtoiOfNumeral(number);
        if v.None? {
          BadSegment(value[..i], done, number, dur, ch, value[i + 1..]);
          return None;
        }
        UnitRead(value[..i], done, number, dur, ch);
        dur := Wrap(dur + Wrap(v.value * Unit(ch)));
        done := done + [Segment(number, ch)];
        number := "";
      }
    }
    assert value[..|value|] == value;
    EndReached(value, done, number, dur);
    if number != "" {
      var v := Atoi(number);
      AtoiOfNumeral(number);
      if v.None? {
        return None;
      }
      dur := Wrap(dur + Wrap(v.value * SECOND));
    }
    r := if dur == 0 then None else Some(dur);
  }

  lemma NothingRead()
    ensures ReadSoFar("", [], "", 0)
  {}

  lemma DigitRead(prefix: string, done: seq<Segment>, number: string, dur: int, ch: char)
    requires ReadSoFar(prefix, done, number, dur) && Digit(ch)
    ensures ReadSoFar(prefix + [ch], done, number + [ch], dur)
  {
    PrintTail(done, number, ch);
  }

  lemma UnitRead(prefix: string, done: seq<Segment>, number: string, dur: int, ch: char)
    requires ReadSoFar(prefix, done, number, dur)
    requires Unit(ch) > 0 && number != "" && ValueOf(number) <= MAX_INT64
    ensures ReadSoFar(prefix + [ch], done + [Segment(number, ch)], "", Wrap(dur + Wrap(Scaled(number, ch))))
  {
    hide Wrap, Unit, Scaled, Nanos, Print;
    var g := Segment(number, ch);
    PrintSplit(done, number);
    AppendSegment(done, g);
    WrapSum(Nanos(done, ""), Scaled(number, ch));
  }

  lemma EndReached(value: string, done: seq<Segment>, number: string, dur: int)
    requires ReadSoFar(value, done, number, dur) && ':' !in value
    ensures var total := Wrap(dur + Wrap(ValueOf(number) * SECOND));
            DurationOf(value) == if ValueOf(number) > MAX_INT64 || total == 0 then None else Some(total)
    ensures number == "" ==> ValueOf(number) == 0 && Wrap(dur + Wrap(ValueOf(number) * SECOND)) == dur
  {
    hide Wrap, Unit, Tokens, Print, Nanos;
    TokensOfPrint(done, number);
    assert DurationOf(value) == Accept(Some((done, number)));
    NanosTail(done, number);
    WrapSum(Nanos(done, ""), ValueOf(number) * SECOND);
    assert ValueOf("") == 0;
  }

  method ParseColonForm(value: string) returns (r: Option<int>)
    ensures r == ColonForm(value)
  {
    var parts := SplitColons(value);
    if |parts| != 3 { return None; }
    var h := Atoi(parts[0]);
    if h.None? { return None; }
    var m := Atoi(parts[1]);
    if m.None? { return None; }
    var s := Atoi(parts[2]);
    if s.None? { return None; }
    var (x, y, z) := (h.value * Unit('h'), m.value * Unit('m'), s.value * Unit('s'));
    WrapSum(x, y);
    WrapSum(x + y, z);
    r := Some(Wrap(Wrap(Wrap(x) + Wrap(y)) + Wrap(z)));
  }

  /** Why the loop may stop at a byte that ends no valid segment. */
  lemma BadSegment(prefix: string, done: seq<Segment>, number: string, dur: int, ch: char, later: string)
    requires ReadSoFar(prefix, done, number, dur) && !Digit(ch)
    requires Unit(ch) == 0 || number == "" || ValueOf(number) > MAX_INT64
    ensures Accept(Tokens(prefix + [ch] + later)) == None
  {
    hide Wrap, Unit, Nanos, Print, Tokens, ValueOf;
    PrintSplit(done, number);
    assert prefix + [ch] + later == Print(done, "") + (number + [ch] + later);
    TokensAfter(done, number + [ch] + later);
    NumberThenByte(number, ch, later);
    if Unit(ch) > 0 && number != "" {
      AfterTwice(done, [Segment(number, ch)], Tokens(later));
      OutOfRange(done, Segment(number, ch), Tokens(later));
    }
  }

  lemma OutOfRange(done: seq<Segment>, g: Segment, later: Option<(seq<Segment>, string)>)
    requires WellFormed(done, "") && SegmentOk(g) && ValueOf(g.digits) > MAX_INT64
    requires later.Some? ==> WellFormed(later.value.0, later.value.1)
    ensures Accept(After(done + [g], later)) == None
  {
    hide Wrap, Unit, Nanos;
    if later.Some? {
      WellFormedConcat(done, [g], "");
      WellFormedConcat(done + [g], later.value.0, later.value.1);
      assert g in done + [g] + later.value.0;
    }
  }

  // ---- Printing and reading back ----

  lemma {:induction false} PrintSplit(segments: seq<Segment>, tail: string)
    ensures Print(segments, tail) == Print(segments, "") + tail
  {
    if segments != [] { PrintSplit(segments[1..], tail); }
  }

  lemma PrintTail(segments: seq<Segment>, tail: string, c: char)
    ensures Print(segments, tail + [c]) == Print(segments, tail) + [c]
  {
    PrintSplit(segments, tail);
    PrintSplit(segments, tail + [c]);
  }

  lemma {:induction false} NanosTail(segments: seq<Segment>, tail: string)
    requires WellFormed(segments, tail)
    ensures Nanos(segments, tail) == Nanos(segments, "") + ValueOf(tail) * SECOND
  {
    if segments != [] { NanosTail(segments[1..], tail); }
  }

  lemma AppendSegment(segments: seq<Segment>, g: Segment)
    requires WellFormed(segments, "") && SegmentOk(g)
    ensures WellFormed(segments + [g], "")
    ensures Print(segments + [g], "") == Print(segments, "") + g.digits + [g.unit]
    ensures Nanos(segments + [g], "") == Nanos(segments, "") + Scaled(g.digits, g.unit)
  {
    WellFormedConcat(segments, [g], "");
    AppendPrint(segments, g);
    AppendNanos(segments, g);
  }

  lemma {:induction false} AppendPrint(segments: seq<Segment>, g: Segment)
    ensures Print(segments + [g], "") == Print(segments, "") + g.digits + [g.unit]
  {
    if segments != [] {
      AppendPrint(segments[1..], g);
      assert (segments + [g])[1..] == segments[1..] + [g];
    } else {
      assert [] + [g] == [g];
    }
  }

  lemma {:induction false} AppendNanos(segments: seq<Segment>, g: Segment)
    requires WellFormed(segments, "") && WellFormed(segments + [g], "")
    ensures Numeral(g.digits)
    ensures Nanos(segments + [g], "") == Nanos(segments, "") + Scaled(g.digits, g.unit)
  {
    assert g in segments + [g] && SegmentOk(g);
    if segments != [] {
      assert (segments + [g])[1..] == segments[1..] + [g];
      AppendNanos(segments[1..], g);
    } else {
      assert [] + [g] == [g];
    }
  }

  lemma WellFormedConcat(first: seq<Segment>, more: seq<Segment>, tail: string)
    requires WellFormed(first, "") && WellFormed(more, tail)
    ensures WellFormed(first + more, tail)
  {
    assert forall g | g in first + more :: g in first || g in more;
  }

  lemma AtoiOfNumeral(s: string)
    requires Numeral(s)
    ensures Atoi(s) == if ValueOf(s) <= MAX_INT64 then Some(ValueOf(s)) else None
  {
    assert Digit(s[0]);
  }

  lemma {:induction false} DigitRunOf(digits: string, rest: string)
    requires AllDigits(digits) && (rest == "" || !Digit(rest[0]))
    ensures DigitRun(digits + rest) == |digits|
  {
    if digits != "" {
      DigitRunOf(digits[1..], rest);
      assert (digits + rest)[1..] == digits[1..] + rest;
    }
  }

  /** Printed segments are read back in front of whatever follows them. */
  lemma {:induction false} TokensAfter(segments: seq<Segment>, rest: string)
    requires WellFormed(segments, "")
    ensures Tokens(Print(segments, "") + rest) == After(segments, Tokens(rest))
  {
    hide ValueOf, Unit, AllDigits, After;
    if segments == [] {
      assert Print(segments, "") + rest == rest;
      AfterNothing(Tokens(rest));
    } else {
      var g := segments[0];
      assert SegmentOk(g);
      var later := Print(segments[1..], "") + rest;
      assert Print(segments, "") + rest == g.digits + [g.unit] + later by {
        assert Print(segments, "") == g.digits + [g.unit] + Print(segments[1..], "");
      }
      UnitsAreNoDigits(g.unit);
      NumberThenByte(g.digits, g.unit, later);
      TailsAreFine(segments);
      TokensAfter(segments[1..], rest);
      AfterTwice([g], segments[1..], Tokens(rest));
      assert [g] + segments[1..] == segments;
    }
  }

  lemma TailsAreFine(segments: seq<Segment>)
    requires segments != [] && WellFormed(segments, "")
    ensures WellFormed(segments[1..], "") && AllDigits(segments[0].digits)
    ensures segments[0].digits != "" && Unit(segments[0].unit) > 0
  {
    assert SegmentOk(segments[0]);
  }

  lemma UnitsAreNoDigits(c: char)
    requires Unit(c) > 0
    ensures !Digit(c) && c != ':'
  {}

  lemma AfterNothing(reading: Option<(seq<Segment>, string)>)
    ensures After([], reading) == reading
  {
    if reading.Some? { assert [] + reading.value.0 == reading.value.0; }
  }

  lemma AfterTwice(a: seq<Segment>, b: seq<Segment>, reading: Option<(seq<Segment>, string)>)
    ensures After(a, After(b, reading)) == After(a + b, reading)
  {
    if reading.Some? { assert a + (b + reading.value.0) == a + b + reading.value.0; }
  }

  /** One step of the reading: a digit run followed by a byte that is no digit. */
  lemma NumberThenByte(number: string, ch: char, later: string)
    requires AllDigits(number) && !Digit(ch)
    ensures Tokens(number + [ch] + later) ==
            if number == "" || Unit(ch) == 0 then None
            else After([Segment(number, ch)], Tokens(later))
  {
    var all := number + [ch] + later;
    assert all == number + ([ch] + later);
    DigitRunOf(number, [ch] + later);
    assert all[..|number|] == number && all[|number| + 1..] == later;
  }

  lemma TokensOfPrint(segments: seq<Segment>, tail: string)
    requires WellFormed(segments, tail)
    ensures Tokens(Print(segments, tail)) == Some((segments, tail))
  {
    PrintSplit(segments, tail);
    TokensAfter(segments, tail);
    DigitRunOf(tail, "");
    assert tail + "" == tail && segments + [] == segments;
  }

  // ---- Main results ----

  ghost predicate Reads(s: string, segments: seq<Segment>, tail: string) {
    WellFormed(segments, tail) && s == Print(segments, tail) && InRange(segments, tail)
  }

  /** Without a colon the parser accepts exactly (digits unit)* digits? with in-range
      numerals and a total that does not wrap to zero, and returns that total. */
  lemma AcceptsExactlyTheGrammar(s: string, d: int)
    requires ':' !in s
    ensures DurationOf(s) == Some(d) <==>
            d != 0 && exists segments, tail | Reads(s, segments, tail) :: d == Wrap(Nanos(segments, tail))
  {
    if exists segments, tail :: Reads(s, segments, tail) && d == Wrap(Nanos(segments, tail)) {
      var segments, tail :| Reads(s, segments, tail) && d == Wrap(Nanos(segments, tail));
      TokensOfPrint(segments, tail);
    }
    if DurationOf(s) == Some(d) {
      var (segments, tail) := Tokens(s).value;
      assert Reads(s, segments, tail);
    }
  }

  lemma {:induction false} PrintHasNoColon(segments: seq<Segment>, tail: string)
    requires WellFormed(segments, tail)
    ensures ':' !in Print(segments, tail)
  {
    if segments != [] {
      assert SegmentOk(segments[0]);
      PrintHasNoColon(segments[1..], tail);
    }
  }

  /** Printing any segment list and parsing it gives the exact sum back, as long as that
      sum is positive and fits a Go duration. */
  lemma PrintThenParse(segments: seq<Segment>, tail: string)
    requires WellFormed(segments, tail) && InRange(segments, tail)
    requires 0 < Nanos(segments, tail) <= MAX_INT64
    ensures DurationOf(Print(segments, tail)) == Some(Nanos(segments, tail))
  {
    PrintHasNoColon(segments, tail);
    TokensOfPrint(segments, tail);
  }

  lemma NumeralEndsInDigit(front: string, tail: string)
    requires Numeral(tail)
    ensures Digit((front + tail)[|front + tail| - 1])
  {}

  lemma EndsInUnit(a: string, reading: (seq<Segment>, string))
    requires Tokens(a) == Some(reading) && a != "" && !Digit(a[|a| - 1])
    ensures reading.1 == ""
  {
    PrintSplit(reading.0, reading.1);
    if reading.1 != "" { NumeralEndsInDigit(Print(reading.0, ""), reading.1); }
  }

  /** A text that ends in a unit letter can be continued: durations add. */
  lemma ParseIsAdditive(a: string, b: string)
    requires ':' !in a && ':' !in b
    requires DurationOf(a).Some? && DurationOf(b).Some? && a != "" && !Digit(a[|a| - 1])
    ensures DurationOf(a + b) ==
            var total := Wrap(DurationOf(a).value + DurationOf(b).value);
            if total == 0 then None else Some(total)
  {
    hide Wrap, Unit, Nanos, Print, Tokens, Accept, WellFormed;
    AcceptedHasReading(a);
    AcceptedHasReading(b);
    var (first, tail) := Tokens(a).value;
    EndsInUnit(a, (first, tail));
    var (more, last) := Tokens(b).value;
    TokensOfPrint(first, "");
    TokensAfter(first, b);
    WellFormedConcat(first, more, last);
    AcceptConcat(first, more, last);
  }

  lemma AcceptedHasReading(s: string)
    requires Accept(Tokens(s)).Some?
    ensures Tokens(s).Some? && WellFormed(Tokens(s).value.0, Tokens(s).value.1)
    ensures Print(Tokens(s).value.0, Tokens(s).value.1) == s
  {}

  lemma AcceptConcat(first: seq<Segment>, more: seq<Segment>, tail: string)
    requires WellFormed(first, "") && WellFormed(more, tail) && WellFormed(first + more, tail)
    requires Accept(Some((first, ""))).Some? && Accept(Some((more, tail))).Some?
    ensures Accept(Some((first + more, tail))) ==
            var total := Wrap(Accept(Some((first, ""))).value + Accept(Some((more, tail))).value);
            if total == 0 then None else Some(total)
  {
    hide Wrap, Unit, Nanos;
    NanosConcat(first, more, tail);
    WrapSum(Nanos(first, ""), Nanos(more, tail));
  }

  lemma {:induction false} NanosConcat(first: seq<Segment>, more: seq<Segment>, tail: string)
    requires WellFormed(first, "") && WellFormed(more, tail)
    ensures WellFormed(first + more, tail)
    ensures Nanos(first + more, tail) == Nanos(first, "") + Nanos(more, tail)
  {
    WellFormedConcat(first, more, tail);
    if first == [] {
      assert first + more == more;
    } else {
      NanosConcat(first[1..], more, tail);
      assert (first + more)[1..] == first[1..] + more;
    }
  }

  lemma HeadAndTail(a: string, b: string)
    requires a != ""
    ensures (a + b)[0] == a[0] && (a + b)[1..] == a[1..] + b && a == [a[0]] + a[1..]
  {}

  lemma {:induction false} SplitColonsAfter(a: string, b: string)
    requires ':' !in a
    ensures SplitColons(a + ":" + b) == [a] + SplitColons(b)
  {
    var rest := ":" + b;
    assert a + ":" + b == a + rest;
    HeadAndTail(":", b);
    if a == "" {
      assert a + rest == rest;
    } else {
      HeadAndTail(a, rest);
      SplitColonsAfter(a[1..], b);
      assert a[1..] + ":" + b == a[1..] + rest;
      assert ([a[1..]] + SplitColons(b))[1..] == SplitColons(b);
    }
  }

  lemma CompactReading(h: string, m: string, s: string)
    requires Numeral(h) && Numeral(m) && Numeral(s)
    ensures var segments := [Segment(h, 'h'), Segment(m, 'm'), Segment(s, 's')];
            && WellFormed(segments, "")
            && Print(segments, "") == h + "h" + m + "m" + s + "s"
            && Nanos(segments, "") == Scaled(h, 'h') + Scaled(m, 'm') + Scaled(s, 's')
  {
    hide Nanos, Print, ValueOf, Unit, Scaled;
    var (x, y, z) := (Segment(h, 'h'), Segment(m, 'm'), Segment(s, 's'));
    TimeUnits();
    NothingPrinted();
    AppendSegment([], x);
    assert [] + [x] == [x];
    AppendSegment([x], y);
    assert [x] + [y] == [x, y];
    AppendSegment([x, y], z);
    assert [x, y] + [z] == [x, y, z];
  }

  lemma TimeUnits()
    ensures Unit('h') > 0 && Unit('m') > 0 && Unit('s') > 0
  {}

  lemma NothingPrinted()
    ensures Print([], "") == "" && Nanos([], "") == 0
  {}

  lemma CompactValue(h: string, m: string, s: string)
    requires Numeral(h) && Numeral(m) && Numeral(s)
    ensures DurationOf(h + "h" + m + "m" + s + "s") ==
            var total := Wrap(Scaled(h, 'h') + Scaled(m, 'm') + Scaled(s, 's'));
            if ValueOf(h) > MAX_INT64 || ValueOf(m) > MAX_INT64 || ValueOf(s) > MAX_INT64 || total == 0 then None
            else Some(total)
  {
    hide Wrap, Unit, Nanos, Print, Tokens, ValueOf, WellFormed, InRange, Scaled;
    var segments := [Segment(h, 'h'), Segment(m, 'm'), Segment(s, 's')];
    CompactReading(h, m, s);
    PrintHasNoColon(segments, "");
    TokensOfPrint(segments, "");
    ThreeInRange(segments);
  }

  lemma ThreeInRange(segments: seq<Segment>)
    requires |segments| == 3 && WellFormed(segments, "")
    ensures SegmentOk(segments[0]) && SegmentOk(segments[1]) && SegmentOk(segments[2])
    ensures InRange(segments, "") <==>
            && ValueOf(segments[0].digits) <= MAX_INT64
            && ValueOf(segments[1].digits) <= MAX_INT64
            && ValueOf(segments[2].digits) <= MAX_INT64
  {
    assert segments[0] in segments && segments[1] in segments && segments[2] in segments;
  }

  lemma ColonParts(h: string, m: string, s: string)
    requires Numeral(h) && Numeral(m) && Numeral(s)
    ensures SplitColons(h + ":" + m + ":" + s) == [h, m, s]
    ensures ':' in h + ":" + m + ":" + s
  {
    assert h + ":" + m + ":" + s == h + ":" + (m + ":" + s);
    SplitColonsAfter(h, m + ":" + s);
    SplitColonsAfter(m, s);
    assert (h + ":" + m + ":" + s)[|h|] == ':';
  }

  lemma ColonValue(h: string, m: string, s: string)
    requires Numeral(h) && Numeral(m) && Numeral(s)
    ensures DurationOf(h + ":" + m + ":" + s) ==
            if ValueOf(h) > MAX_INT64 || ValueOf(m) > MAX_INT64 || ValueOf(s) > MAX_INT64 then None
            else Some(Wrap(Scaled(h, 'h') + Scaled(m, 'm') + Scaled(s, 's')))
  {
    hide Wrap, Unit, ValueOf, SplitColons, Atoi;
    AtoiOfNumeral(h); AtoiOfNumeral(m); AtoiOfNumeral(s);
    ColonParts(h, m, s);
  }

  /** Unsigned `h:m:s` is the compact `<h>h<m>m<s>s`, except that only the colon form
      accepts a total of zero. */
  lemma ColonFormAgreesWithCompact(h: string, m: string, s: string)
    requires Numeral(h) && Numeral(m) && Numeral(s)
    ensures DurationOf(h + "h" + m + "m" + s + "s") ==
            if DurationOf(h + ":" + m + ":" + s) == Some(0) then None else DurationOf(h + ":" + m + ":" + s)
  {
    hide Wrap, Unit, Scaled, ColonForm, Accept, ValueOf;
    CompactValue(h, m, s);
    ColonValue(h, m, s);
  }

  // ---- Numbers, printed in decimal ----

  function DigitChar(d: nat): char
    requires d < 10
  {
    "0123456789"[d]
  }

  /** Decimal notation, by division and remainder. */
  function Decimal(n: nat): string {
    if n < 10 then [DigitChar(n)] else Decimal(n / 10) + [DigitChar(n % 10)]
  }

  function SignedDecimal(x: int): string {
    if x < 0 then "-" + Decimal(-x) else Decimal(x)
  }

  lemma DigitReads(d: nat)
    requires d < 10
    ensures Digit(DigitChar(d)) && DigitValue(DigitChar(d)) == d
  {}

  lemma {:induction false} DecimalReads(n: nat)
    ensures Numeral(Decimal(n)) && ValueOf(Decimal(n)) == n
  {
    DigitReads(n % 10);
    if n < 10 {
      assert Decimal(n)[..0] == "";
    } else {
      DecimalReads(n / 10);
      assert Decimal(n)[..|Decimal(n)| - 1] == Decimal(n / 10);
    }
  }

  /** Every 64-bit integer is read back from its decimal notation. */
  lemma AtoiReadsDecimals(x: int)
    requires -MAX_INT64 - 1 <= x <= MAX_INT64
    ensures Atoi(SignedDecimal(x)) == Some(x)
  {
    hide ValueOf, Decimal;
    var n := if x < 0 then -x else x;
    DecimalReads(n);
    if x < 0 {
      assert SignedDecimal(x)[1..] == Decimal(n);
    } else {
      assert Decimal(n)[0] in Decimal(n);
    }
  }

  /** A number and the letter of its unit. */
  datatype Part = Part(n: nat, unit: char)

  /** Seconds in a unit. */
  function SecondsIn(unit: char): nat {
    if unit == 'w' then 604800 else if unit == 'd' then 86400 else if unit == 'h' then 3600
    else if unit == 'm' then 60 else if unit == 's' then 1 else 0
  }

  /** The parts one after the other, in decimal. */
  function TextOf(parts: seq<Part>): string {
    if parts == [] then "" else Decimal(parts[0].n) + [parts[0].unit] + TextOf(parts[1..])
  }

  function TotalSeconds(parts: seq<Part>): nat {
    if parts == [] then 0 else parts[0].n * SecondsIn(parts[0].unit) + TotalSeconds(parts[1..])
  }

  predicate UnitsOk(parts: seq<Part>) {
    forall i | 0 <= i < |parts| :: parts[i].unit in "wdhms"
  }

  predicate SmallParts(parts: seq<Part>) {
    forall i | 0 <= i < |parts| :: parts[i].n <= MAX_INT64
  }

  function SegmentsOf(parts: seq<Part>): seq<Segment> {
    if parts == [] then [] else [Segment(Decimal(parts[0].n), parts[0].unit)] + SegmentsOf(parts[1..])
  }

  lemma UnitsInSeconds(unit: char)
    ensures Unit(unit) == SecondsIn(unit) * 1_000_000_000
    ensures unit in "wdhms" ==> SecondsIn(unit) > 0
  {}

  lemma OneSegment(part: Part)
    requires part.unit in "wdhms"
    ensures var g := Segment(Decimal(part.n), part.unit);
            SegmentOk(g) && ValueOf(g.digits) == part.n
            && Scaled(g.digits, g.unit) == part.n * SecondsIn(part.unit) * 1_000_000_000
  {
    hide ValueOf, Decimal, Unit;
    DecimalReads(part.n);
    UnitsInSeconds(part.unit);
  }

  lemma {:induction false} SegmentsOfParts(parts: seq<Part>)
    requires UnitsOk(parts) && SmallParts(parts)
    ensures WellFormed(SegmentsOf(parts), "") && InRange(SegmentsOf(parts), "")
    ensures Print(SegmentsOf(parts), "") == TextOf(parts)
    ensures Nanos(SegmentsOf(parts), "") == TotalSeconds(parts) * 1_000_000_000
  {
    hide ValueOf, Decimal, Unit, SecondsIn, Scaled, SegmentOk;
    if parts == [] {
      NothingPrinted();
      EmptyIsZero();
    } else {
      SegmentsOfParts(parts[1..]);
      OneSegment(parts[0]);
      var (g, rest) := (Segment(Decimal(parts[0].n), parts[0].unit), SegmentsOf(parts[1..]));
      assert SegmentsOf(parts) == [g] + rest && ([g] + rest)[1..] == rest;
      assert forall x :: x in SegmentsOf(parts) <==> x == g || x in rest;
    }
  }

  lemma EmptyIsZero()
    ensures ValueOf("") == 0
  {}

  lemma {:induction false} TotalBoundsParts(parts: seq<Part>)
    requires UnitsOk(parts)
    ensures forall i | 0 <= i < |parts| :: parts[i].n <= TotalSeconds(parts)
  {
    hide SecondsIn;
    if parts != [] {
      TotalBoundsParts(parts[1..]);
      UnitsInSeconds(parts[0].unit);
      assert parts[0].n <= parts[0].n * SecondsIn(parts[0].unit);
      forall i | 0 <= i < |parts| ensures parts[i].n <= TotalSeconds(parts) {
        if i > 0 { assert parts[i] == parts[1..][i - 1]; }
      }
    }
  }

  /** Any list of numbers with units parses to its total. */
  lemma DecimalsParse(parts: seq<Part>)
    requires UnitsOk(parts) && 0 < TotalSeconds(parts) * 1_000_000_000 <= MAX_INT64
    ensures DurationOf(TextOf(parts)) == Some(TotalSeconds(parts) * 1_000_000_000)
  {
    hide ValueOf, Decimal, TextOf, TotalSeconds, DurationOf, Nanos, Print, InRange, WellFormed;
    TotalBoundsParts(parts);
    SegmentsOfParts(parts);
    PrintThenParse(SegmentsOf(parts), "");
  }

  lemma OneMorePart(n: nat, unit: char, rest: seq<Part>)
    ensures TextOf([Part(n, unit)] + rest) == Decimal(n) + [unit] + TextOf(rest)
    ensures TotalSeconds([Part(n, unit)] + rest) == n * SecondsIn(unit) + TotalSeconds(rest)
    ensures UnitsOk(rest) && unit in "wdhms" ==> UnitsOk([Part(n, unit)] + rest)
  {
    hide Decimal, SecondsIn;
    assert ([Part(n, unit)] + rest)[1..] == rest;
  }

  lemma Regroup(left: string, a: string, b: string, right: string)
    ensures left + (a + b + right) == left + a + b + right
  {}

  function FiveParts(w: nat, d: nat, h: nat, m: nat, s: nat): seq<Part> {
    [Part(w, 'w')] + ([Part(d, 'd')] + ([Part(h, 'h')] + ([Part(m, 'm')] + ([Part(s, 's')] + []))))
  }

  function CompactText(w: nat, d: nat, h: nat, m: nat, s: nat): string {
    Decimal(w) + "w" + Decimal(d) + "d" + Decimal(h) + "h" + Decimal(m) + "m" + Decimal(s) + "s"
  }

  lemma FiveTexts(w: nat, d: nat, h: nat, m: nat, s: nat)
    ensures TextOf(FiveParts(w, d, h, m, s)) == CompactText(w, d, h, m, s)
  {
    hide Decimal, TextOf, TotalSeconds, UnitsOk;
    var p1 := [Part(s, 's')] + [];
    var p2 := [Part(m, 'm')] + p1;
    var p3 := [Part(h, 'h')] + p2;
    var p4 := [Part(d, 'd')] + p3;
    NoParts();
    OneMorePart(s, 's', []);
    OneMorePart(m, 'm', p1);
    OneMorePart(h, 'h', p2);
    OneMorePart(d, 'd', p3);
    OneMorePart(w, 'w', p4);
    var t1 := Decimal(w) + "w";
    var t2 := t1 + Decimal(d) + "d";
    var t3 := t2 + Decimal(h) + "h";
    var t4 := t3 + Decimal(m) + "m";
    Regroup(t1, Decimal(d), "d", TextOf(p3));
    Regroup(t2, Decimal(h), "h", TextOf(p2));
    Regroup(t3, Decimal(m), "m", TextOf(p1));
    Regroup(t4, Decimal(s), "s", "");
    EndsEmpty(t4 + Decimal(s) + "s");
  }

  lemma EndsEmpty(s: string)
    ensures s + "" == s
  {}

  lemma FiveTotals(w: nat, d: nat, h: nat, m: nat, s: nat)
    ensures TotalSeconds(FiveParts(w, d, h, m, s)) == (((7 * w + d) * 24 + h) * 60 + m) * 60 + s
    ensures UnitsOk(FiveParts(w, d, h, m, s))
  {
    hide Decimal, TextOf, TotalSeconds, UnitsOk;
    var p1 := [Part(s, 's')] + [];
    var p2 := [Part(m, 'm')] + p1;
    var p3 := [Part(h, 'h')] + p2;
    var p4 := [Part(d, 'd')] + p3;
    NoParts();
    OneMorePart(s, 's', []);
    OneMorePart(m, 'm', p1);
    OneMorePart(h, 'h', p2);
    OneMorePart(d, 'd', p3);
    OneMorePart(w, 'w', p4);
  }

  /** Weeks, days, hours, minutes and seconds, in nanoseconds. */
  lemma CompactDecimals(w: nat, d: nat, h: nat, m: nat, s: nat)
    requires 0 < ((((7 * w + d) * 24 + h) * 60 + m) * 60 + s) * 1_000_000_000 <= MAX_INT64
    ensures DurationOf(CompactText(w, d, h, m, s))
         == Some(((((7 * w + d) * 24 + h) * 60 + m) * 60 + s) * 1_000_000_000)
  {
    hide CompactText, TextOf, TotalSeconds, DurationOf, UnitsOk, FiveParts;
    FiveTexts(w, d, h, m, s);
    FiveTotals(w, d, h, m, s);
    DecimalsParse(FiveParts(w, d, h, m, s));
  }

  lemma NoParts()
    ensures TextOf([]) == "" && TotalSeconds([]) == 0 && UnitsOk([])
  {}

  /** A number of one unit alone, and a bare number of seconds. */
  lemma OneUnitDecimals(n: nat, unit: char, seconds: nat)
    requires (unit, seconds) in {('w', 604800), ('d', 86400), ('h', 3600), ('m', 60), ('s', 1)}
    requires 0 < n * seconds * 1_000_000_000 <= MAX_INT64
    ensures DurationOf(Decimal(n) + [unit]) == Some(n * seconds * 1_000_000_000)
    ensures seconds == 1 ==> DurationOf(Decimal(n)) == Some(n * 1_000_000_000)
  {
    hide ValueOf, Decimal, DurationOf, TextOf, TotalSeconds, Print, Nanos;
    NoParts();
    OneMorePart(n, unit, []);
    DecimalsParse([Part(n, unit)] + []);
    assert Decimal(n) + [unit] + "" == Decimal(n) + [unit];
    if seconds == 1 {
      DecimalReads(n);
      BareSeconds(Decimal(n));
      PrintThenParse([], Decimal(n));
    }
  }

  lemma BareSeconds(tail: string)
    requires Numeral(tail)
    ensures WellFormed([], tail) && Print([], tail) == tail && Nanos([], tail) == ValueOf(tail) * 1_000_000_000
  {}

  /** Hours, minutes and seconds in the colon form, each with its sign. */
  lemma ColonDecimals(h: int, m: int, s: int)
    requires -MAX_INT64 - 1 <= h <= MAX_INT64 && -MAX_INT64 - 1 <= m <= MAX_INT64 && -MAX_INT64 - 1 <= s <= MAX_INT64
    requires -MAX_INT64 - 1 <= ((h * 60 + m) * 60 + s) * 1_000_000_000 <= MAX_INT64
    ensures DurationOf(SignedDecimal(h) + ":" + SignedDecimal(m) + ":" + SignedDecimal(s))
         == Some(((h * 60 + m) * 60 + s) * 1_000_000_000)
  {
    hide SignedDecimal, Atoi, SplitColons;
    AtoiReadsDecimals(h);
    AtoiReadsDecimals(m);
    AtoiReadsDecimals(s);
    NoColonInDecimals(h);
    NoColonInDecimals(m);
    NoColonInDecimals(s);
    var (a, b, c) := (SignedDecimal(h), SignedDecimal(m), SignedDecimal(s));
    SplitColonsAfter(a, b + ":" + c);
    SplitColonsAfter(b, c);
    assert a + ":" + b + ":" + c == a + ":" + (b + ":" + c);
    assert (a + ":" + b + ":" + c)[|a|] == ':';
  }

  lemma NoColonInDecimals(x: int)
    ensures ':' !in SignedDecimal(x)
  {
    hide Decimal, ValueOf;
    DecimalReads(if x < 0 then -x else x);
  }

  /** The age of a time stamp is its distance from the snapshot, on either side. */
  lemma StampAge(timestamp: string -> Option<int>, text: string, now: int)
    requires !Blank(text) && timestamp(Trim(text)).Some?
    ensures AgeOf(timestamp, text, now).Some?
    ensures var (t, age) := (timestamp(Trim(text)).value, AgeOf(timestamp, text, now).value);
            age >= 0 && (t == now - age || t == now + age)
  {
    hide Trim;
  }

  /** Every readable age of 64 bits stays within 64 bits. */
  lemma DurationsFit(s: string)
    ensures DurationOf(s).Some? ==> -MAX_INT64 - 1 <= DurationOf(s).value <= MAX_INT64
  {
    hide Tokens, SplitColons, Nanos, Atoi;
  }
}
