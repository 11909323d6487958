/**
 * The opaque page cursor (internal/operations/operations.go): an RFC 3339 timestamp
 * in UTC and an id, joined by a bar and percent-encoded.
 */
module Cursor {
  import opened Wrappers
  import opened Calendar
  import opened Text

  // ---- Percent encoding ----

  const HEX := "0123456789ABCDEF"

  predicate IsPlain(c: char) {
    'A' <= c <= 'Z' || 'a' <= c <= 'z' || '0' <= c <= '9' || c == '-' || c == '_' || c == ':' || c == '.'
  }

  predicate IsHex(c: char) {
    '0' <= c <= '9' || 'A' <= c <= 'F'
  }

  function HexValue(c: char): (v: nat)
    requires IsHex(c)
    ensures v < 16
  {
    if c <= '9' then c as int - '0' as int else c as int - 'A' as int + 10
  }

  function EscapeChar(c: char): (s: string)
    requires c as int < 256
    ensures s == [c] || (|s| == 3 && s[0] == '%' && IsHex(s[1]) && IsHex(s[2]))
  {
    if IsPlain(c) then [c] else ['%', HEX[c as int / 16], HEX[c as int % 16]]
  }

  function Escape(s: string): string
    requires IsBytes(s)
  {
    if s == "" then "" else EscapeChar(s[0]) + Escape(s[1..])
  }

  function Unescape(s: string): Option<string> {
    if s == "" then Some("")
    else if s[0] != '%' then Prepend(s[0], Unescape(s[1..]))
    else if |s| < 3 || !IsHex(s[1]) || !IsHex(s[2]) then None
    else Prepend((16 * HexValue(s[1]) + HexValue(s[2])) as char, Unescape(s[3..]))
  }

  function Prepend(c: char, s: Option<string>): Option<string> {
    if s.None? then None else Some([c] + s.value)
  }

  /** Two upper-case hexadecimal digits follow position i. */
  predicate EscapeAt(s: string, i: nat)
    requires i < |s|
  {
    i + 2 < |s| && IsHex(s[i + 1]) && IsHex(s[i + 2])
  }

  /**
   * Decoding fails exactly at a percent sign, wherever it stands, without two upper-case
   * hexadecimal digits after it.
   */
  lemma {:induction false} UnescapeSucceedsIff(s: string)
    ensures Unescape(s).Some? <==> forall i | 0 <= i < |s| && s[i] == '%' :: EscapeAt(s, i)
  {
    if s != "" {
      var k := if s[0] == '%' then 3 else 1;
      if k <= |s| && (k == 1 || EscapeAt(s, 0)) {
        var rest := s[k..];
        UnescapeSucceedsIff(rest);
        assert forall i | 0 <= i < |rest| :: rest[i] == s[i + k] && EscapeAt(rest, i) == EscapeAt(s, i + k);
        assert forall i | k <= i < |s| :: s[i] == rest[i - k];
      }
    }
  }

  lemma HexDigits(n: nat)
    requires n < 16
    ensures IsHex(HEX[n]) && HexValue(HEX[n]) == n
  {
  }

  lemma UnescapeOne(c: char, rest: string)
    requires c as int < 256
    ensures Unescape(EscapeChar(c) + rest) == Prepend(c, Unescape(rest))
  {
    var e := EscapeChar(c);
    assert (e + rest)[|e|..] == rest;
    if !IsPlain(c) {
      HexDigits(c as int / 16);
      HexDigits(c as int % 16);
    }
  }

  lemma {:induction false} UnescapeEscape(s: string)
    requires IsBytes(s)
    ensures Unescape(Escape(s)) == Some(s)
  {
    hide Unescape, EscapeChar;
    if s != "" {
      UnescapeEscape(s[1..]);
      UnescapeOne(s[0], Escape(s[1..]));
      assert s == [s[0]] + s[1..];
    } else {
      UnescapeNothing();
    }
  }

  lemma UnescapeNothing()
    ensures Unescape("") == Some("")
  {
  }

  /** A cursor needs no further quoting in a query string. */
  lemma {:induction false} EscapeIsPlain(s: string)
    requires IsBytes(s)
    ensures forall i | 0 <= i < |Escape(s)| ::
      var c := Escape(s)[i];
      'A' <= c <= 'Z' || 'a' <= c <= 'z' || '0' <= c <= '9' || c in "-_:.%"
  {
    if s != "" {
      EscapeIsPlain(s[1..]);
    }
  }

  /** Letters, digits and four signs stand for themselves, every other byte for its two digits. */
  lemma EscapesExactly(c: char)
    requires c as int < 256
    ensures EscapeChar(c) == [c] <==> 'A' <= c <= 'Z' || 'a' <= c <= 'z' || '0' <= c <= '9' || c in "-_:."
    ensures EscapeChar(c) != [c] ==>
      EscapeChar(c) == ['%', "0123456789ABCDEF"[c as int / 16], "0123456789ABCDEF"[c as int % 16]]
  {
  }

  // ---- Timestamps, section 5.6 of RFC 3339 ----

  datatype Timestamp = Timestamp(date: CivilDate, hour: nat, minute: nat, second: nat, nanos: nat)

  predicate RealTime(t: Timestamp) {
    Real(t.date) && t.hour < 24 && t.minute < 60 && t.second < 60 && t.nanos < 1_000_000_000
  }

  /** What can be written in RFC 3339. */
  predicate RealTimestamp(t: Timestamp) {
    RealTime(t) && FourDigit(t.date)
  }

  /** Minutes since a fixed midnight. */
  function MinuteOf(t: Timestamp): int
    requires RealTime(t)
  {
    1440 * DayNumber(t.date) + 60 * t.hour + t.minute
  }

  function ShiftMinutes(t: Timestamp, m: int): (r: Timestamp)
    requires RealTime(t)
    ensures RealTime(r)
  {
    var total := 60 * t.hour + t.minute + m;
    Timestamp(AddDays(t.date, total / 1440), total % 1440 / 60, total % 1440 % 60, t.second, t.nanos)
  }

  lemma ShiftIsExact(t: Timestamp, m: int)
    requires RealTime(t)
    ensures MinuteOf(ShiftMinutes(t, m)) == MinuteOf(t) + m
  {
    hide AddDays, DayNumber, Real;
    DayNumberAddDays(t.date, (60 * t.hour + t.minute + m) / 1440);
  }

  lemma SameMinute(t: Timestamp, u: Timestamp)
    requires RealTime(t) && RealTime(u) && MinuteOf(t) == MinuteOf(u) && t.second == u.second && t.nanos == u.nanos
    ensures t == u
  {
    hide DayNumber, Real, CompareCivilDate;
    CompareIsDayOrder(t.date, u.date);
  }

  lemma ShiftBack(t: Timestamp, m: int)
    requires RealTime(t)
    ensures ShiftMinutes(ShiftMinutes(t, m), -m) == t
  {
    hide ShiftMinutes, MinuteOf;
    var u := ShiftMinutes(t, m);
    ShiftIsExact(t, m);
    ShiftIsExact(u, -m);
    ShiftKeepsSeconds(t, m);
    ShiftKeepsSeconds(u, -m);
    SameMinute(ShiftMinutes(u, -m), t);
  }

  lemma ShiftKeepsSeconds(t: Timestamp, m: int)
    requires RealTime(t)
    ensures ShiftMinutes(t, m).second == t.second && ShiftMinutes(t, m).nanos == t.nanos
  {
  }

  lemma Billion()
    ensures Power10(9) == 1_000_000_000
  {
    assert Power10(4) == 10_000;
    assert Power10(8) == 100_000_000;
  }

  function TrimZeros(s: string): (r: string)
    ensures |r| <= |s| && r == s[..|r|]
  {
    if s != "" && s[|s| - 1] == '0' then TrimZeros(s[..|s| - 1]) else s
  }

  /** Zeros on the right up to n characters. */
  function PadZeros(s: string, n: nat): (r: string)
    ensures |s| <= n ==> |r| == n
    ensures (forall i | 0 <= i < |s| :: IsDigit(s[i])) ==> forall i | 0 <= i < |r| :: IsDigit(r[i])
    decreases n - |s|
  {
    if |s| < n then PadZeros(s + "0", n) else s
  }

  lemma {:induction false} PadTrimmed(s: string)
    ensures PadZeros(TrimZeros(s), |s|) == s
  {
    if s != "" && s[|s| - 1] == '0' {
      PadTrimmed(s[..|s| - 1]);
      PadOneMore(TrimZeros(s), |s| - 1);
      assert s == s[..|s| - 1] + "0";
    }
  }

  lemma {:induction false} PadOneMore(s: string, n: nat)
    requires |s| <= n
    ensures PadZeros(s, n + 1) == PadZeros(s, n) + "0"
    decreases n - |s|
  {
    if |s| < n {
      PadOneMore(s + "0", n);
    } else {
      assert PadZeros(s + "0", n + 1) == s + "0";
    }
  }

  /** Nanoseconds without trailing zeros, and nothing for none. */
  function Fraction(nanos: nat): string {
    if nanos == 0 then "" else "." + TrimZeros(Digits(nanos, 9))
  }

  /** Nanoseconds from decimals; those after the ninth are dropped. */
  function FractionValue(digits: string): (r: nat)
    requires forall i | 0 <= i < |digits| :: IsDigit(digits[i])
    ensures r < 1_000_000_000
  {
    var nine := if |digits| > 9 then digits[..9] else digits;
    ValueBound(PadZeros(nine, 9));
    Billion();
    ValueOf(PadZeros(nine, 9))
  }

  /** A point or comma and any number of digits, if they are there. */
  function TakeFraction(s: string): (r: (nat, string))
    ensures r.0 < 1_000_000_000
  {
    if |s| < 2 || (s[0] != '.' && s[0] != ',') || !IsDigit(s[1]) then (0, s)
    else
      var k := DigitsEnd(s[1..]);
      (FractionValue(s[1..][..k]), s[1..][k..])
  }

  lemma NonzeroDigit(n: nat, k: nat)
    requires 0 < n < Power10(k)
    ensures TrimZeros(Digits(n, k)) != ""
  {
    var s := Digits(n, k);
    if TrimZeros(s) == "" {
      PadTrimmed(s);
      ValueOfDigits(n, k);
      AllZeros(k);
    }
  }

  lemma {:induction false} AllZeros(n: nat)
    ensures ValueOf(PadZeros("", n)) == 0
  {
    if n > 0 {
      AllZeros(n - 1);
      PadOneMore("", n - 1);
      assert PadZeros("", n)[..n - 1] == PadZeros("", n - 1);
    }
  }

  lemma DigitsAreTaken(digits: string, zone: string)
    requires digits != "" && (forall i | 0 <= i < |digits| :: IsDigit(digits[i])) && zone != "" && !IsDigit(zone[0])
    ensures TakeFraction("." + digits + zone) == (FractionValue(digits), zone)
  {
    hide FractionValue;
    var rest := ("." + digits + zone)[1..];
    assert rest == digits + zone;
    var k := DigitsEnd(rest);
    assert rest[|digits|] == zone[0] && forall i | 0 <= i < |digits| :: rest[i] == digits[i];
    assert k == |digits| && rest[..k] == digits && rest[k..] == zone;
  }

  lemma FractionParses(nanos: nat, zone: string)
    requires nanos < 1_000_000_000 && zone != "" && !IsDigit(zone[0]) && zone[0] != '.' && zone[0] != ','
    ensures TakeFraction(Fraction(nanos) + zone) == (nanos, zone)
  {
    hide TrimZeros, Digits, DigitsEnd;
    Billion();
    if nanos == 0 {
      assert Fraction(nanos) + zone == zone;
    } else {
      hide TakeFraction;
      var s := Digits(nanos, 9);
      NonzeroDigit(nanos, 9);
      PadTrimmed(s);
      ValueOfDigits(nanos, 9);
      DigitsAreTaken(TrimZeros(s), zone);
    }
  }

  /** Date and time of day, without a zone. */
  function FormatLocal(t: Timestamp): string
    requires RealTimestamp(t)
  {
    Format(t.date) + "T" + Pad2(t.hour) + ":" + Pad2(t.minute) + ":" + Pad2(t.second) + Fraction(t.nanos)
  }

  function FormatTimestamp(t: Timestamp): string
    requires RealTimestamp(t)
  {
    FormatLocal(t) + "Z"
  }

  /** Minutes east of UTC in section 5.6 of RFC 3339. */
  function FormatOffset(o: int): (s: string)
    requires -1440 < o < 1440
    ensures |s| == 6
  {
    var m := if o < 0 then -o else o;
    [if o < 0 then '-' else '+'] + Pad2(m / 60) + ":" + Pad2(m % 60)
  }

  // Go's time.Parse: the hour may have one digit, the fraction may follow a comma, offsets of 24 hours
  // and 60 minutes pass, and the time is taken back to UTC.

  function Number(s: string, fixed: bool): (r: Option<(nat, string)>)
    ensures r.Some? ==> r.value.0 < 100
  {
    if s == "" || !IsDigit(s[0]) then None
    else if |s| == 1 || !IsDigit(s[1]) then if fixed then None else Some((DigitValue(s[0]), s[1..]))
    else Some((10 * DigitValue(s[0]) + DigitValue(s[1]), s[2..]))
  }

  /** A colon and two digits below 60. */
  function ColonNumber(s: string): (r: Option<(nat, string)>)
    ensures r.Some? ==> r.value.0 < 60
  {
    if s == "" || s[0] != ':' then None
    else
      var n := Number(s[1..], true);
      if n.None? || n.value.0 >= 60 then None else n
  }

  /** Minutes and seconds always have two digits. */
  lemma ColonNumberIs(s: string, n: nat, rest: string)
    ensures ColonNumber(s) == Some((n, rest)) <==> n < 60 && s == ":" + Pad2(n) + rest
  {
    if ColonNumber(s) == Some((n, rest)) {
      assert s == ":" + [s[1], s[2]] + rest;
    }
    if n < 60 && s == ":" + Pad2(n) + rest {
      assert s[1..] == Pad2(n) + rest && s[1..][2..] == rest;
    }
  }

  datatype Clock = Clock(hour: nat, minute: nat, second: nat, rest: string)

  function ParseClock(s: string): (r: Option<Clock>)
    ensures r.Some? ==> r.value.hour < 24 && r.value.minute < 60 && r.value.second < 60
  {
    var hour := Number(s, false);
    if hour.None? || hour.value.0 >= 24 then None
    else
      var minute := ColonNumber(hour.value.1);
      if minute.None? then None
      else
        var second := ColonNumber(minute.value.1);
        if second.None? then None else Some(Clock(hour.value.0, minute.value.0, second.value.0, second.value.1))
  }

  function ParseOffset(s: string): Option<int> {
    if s == "Z" then Some(0)
    else if |s| != 6 || s[3] != ':' || (s[0] != '+' && s[0] != '-') then None
    else
      var hour, minute := Number(s[1..3], true), Number(s[4..6], true);
      if hour.None? || minute.None? || hour.value.0 > 24 || minute.value.0 > 60 then None
      else
        var o := 60 * hour.value.0 + minute.value.0;
        Some(if s[0] == '-' then -o else o)
  }

  /** A timestamp in any zone, as the same instant in UTC. */
  function ParseTimestamp(s: string): (r: Option<Timestamp>)
    ensures r.Some? ==> RealTime(r.value)
  {
    if |s| < 11 || s[10] != 'T' then None
    else
      var date, clock := ParseCivilDate(s[..10]), ParseClock(s[11..]);
      if date.None? || clock.None? then None
      else
        var (nanos, zone) := TakeFraction(clock.value.rest);
        var offset := ParseOffset(zone);
        if offset.None? then None
        else Some(ShiftMinutes(Timestamp(date.value, clock.value.hour, clock.value.minute, clock.value.second, nanos),
          -offset.value))
  }

  lemma NumberParses(n: nat, rest: string)
    requires n < 100
    ensures Number(Pad2(n) + rest, false) == Number(Pad2(n) + rest, true) == Some((n, rest))
    ensures n < 60 ==> ColonNumber(":" + Pad2(n) + rest) == Some((n, rest))
  {
    assert (Pad2(n) + rest)[2..] == rest;
    assert (":" + Pad2(n) + rest)[1..] == Pad2(n) + rest;
  }

  lemma OffsetParses(o: int)
    requires -1440 < o < 1440
    ensures ParseOffset(FormatOffset(o)) == Some(o)
  {
    var s := FormatOffset(o);
    var m := if o < 0 then -o else o;
    NumberParses(m / 60, "");
    NumberParses(m % 60, "");
    assert s[1..3] == Pad2(m / 60) == Pad2(m / 60) + "" && s[4..6] == Pad2(m % 60) == Pad2(m % 60) + "";
  }

  predicate IsZone(zone: string) {
    zone == "Z" || (zone != "" && (zone[0] == '+' || zone[0] == '-'))
  }

  lemma ClockParses(hour: nat, minute: nat, second: nat, rest: string)
    requires hour < 24 && minute < 60 && second < 60
    ensures ParseClock(Pad2(hour) + ":" + Pad2(minute) + ":" + Pad2(second) + rest) ==
      Some(Clock(hour, minute, second, rest))
  {
    hide Number, ColonNumber;
    var seconds := ":" + Pad2(second) + rest;
    var minutes := ":" + Pad2(minute) + seconds;
    NumberParses(hour, minutes);
    NumberParses(minute, seconds);
    NumberParses(second, rest);
    assert Pad2(hour) + ":" + Pad2(minute) + ":" + Pad2(second) + rest == Pad2(hour) + minutes;
  }

  lemma LocalSlices(t: Timestamp, zone: string)
    requires RealTimestamp(t)
    ensures var s := FormatLocal(t) + zone;
      && |s| >= 11 && s[..10] == Format(t.date) && s[10] == 'T'
      && s[11..] == Pad2(t.hour) + ":" + Pad2(t.minute) + ":" + Pad2(t.second) + (Fraction(t.nanos) + zone)
  {
    hide Fraction, Pad2, Real;
    var s := FormatLocal(t) + zone;
    assert |Format(t.date)| == 10;
    hide Format;
    var rest := Pad2(t.hour) + ":" + Pad2(t.minute) + ":" + Pad2(t.second) + (Fraction(t.nanos) + zone);
    assert s == Format(t.date) + "T" + rest;
  }

  lemma PiecesParse(s: string, t: Timestamp, rest: string, zone: string)
    requires RealTime(t) && |s| >= 11 && s[10] == 'T' && ParseCivilDate(s[..10]) == Some(t.date)
    requires ParseClock(s[11..]) == Some(Clock(t.hour, t.minute, t.second, rest))
      && TakeFraction(rest) == (t.nanos, zone)
    ensures ParseTimestamp(s) ==
      if ParseOffset(zone).None? then None else Some(ShiftMinutes(t, -ParseOffset(zone).value))
  {
    hide ParseClock, TakeFraction, ParseOffset, ParseCivilDate, ShiftMinutes, Real;
  }

  /** Every text of a time in a zone is read as that time, taken back by the zone's offset. */
  lemma LocalParses(t: Timestamp, zone: string)
    requires RealTimestamp(t) && IsZone(zone)
    ensures var o := ParseOffset(zone);
      ParseTimestamp(FormatLocal(t) + zone) == if o.None? then None else Some(ShiftMinutes(t, -o.value))
  {
    hide Fraction, Format, FormatLocal, Pad2, ParseClock, TakeFraction, ParseOffset, ParseCivilDate, ShiftMinutes,
      Real, ParseTimestamp;
    FormatParses(t.date);
    LocalSlices(t, zone);
    var rest := Fraction(t.nanos) + zone;
    ClockParses(t.hour, t.minute, t.second, rest);
    FractionParses(t.nanos, zone);
    PiecesParse(FormatLocal(t) + zone, t, rest, zone);
  }

  lemma NoShift(t: Timestamp)
    requires RealTime(t)
    ensures ShiftMinutes(t, 0) == t
  {
    assert (60 * t.hour + t.minute) / 1440 == 0;
    assert AddDays(t.date, 0) == t.date;
    hide AddDays;
  }

  lemma TimestampParses(t: Timestamp)
    requires RealTimestamp(t)
    ensures ParseTimestamp(FormatTimestamp(t)) == Some(t)
  {
    hide ParseTimestamp, FormatLocal, ShiftMinutes;
    LocalParses(t, "Z");
    NoShift(t);
  }

  /** The same instant written in another zone is read as that instant in UTC. */
  lemma OffsetTimestampParses(t: Timestamp, o: int)
    requires RealTime(t) && -1440 < o < 1440 && RealTimestamp(ShiftMinutes(t, o))
    ensures ParseTimestamp(FormatLocal(ShiftMinutes(t, o)) + FormatOffset(o)) == Some(t)
  {
    hide ShiftMinutes, ParseOffset, ParseTimestamp, FormatLocal;
    var zone := FormatOffset(o);
    LocalParses(ShiftMinutes(t, o), zone);
    OffsetParses(o);
    ShiftBack(t, o);
  }

  // ---- The cursor ----

  function EncodeOf(at: Timestamp, id: string): string
    requires RealTimestamp(at) && IsBytes(id)
  {
    TimestampIsBytes(at);
    Escape(FormatTimestamp(at) + "|" + id)
  }

  /** Where the first bar is, or the length. */
  function BarAt(s: string): (k: nat)
    ensures k <= |s| && (forall i | 0 <= i < k :: s[i] != '|') && (k < |s| ==> s[k] == '|')
  {
    if s == "" || s[0] == '|' then 0 else 1 + BarAt(s[1..])
  }

  function Split(raw: string): Option<(Timestamp, string)> {
    var k := BarAt(raw);
    if k >= |raw| - 1 then None
    else
      var at := ParseTimestamp(raw[..k]);
      if at.None? then None else Some((at.value, raw[k + 1..]))
  }

  function DecodeOf(cursor: string): Option<(Timestamp, string)> {
    var raw := Unescape(cursor);
    if raw.None? then None else Split(raw.value)
  }

  /** Bytes without a bar. */
  predicate IsClean(s: string) {
    forall i | 0 <= i < |s| :: s[i] as int < 256 && s[i] != '|'
  }

  lemma CleanAppend(s: string, t: string)
    requires IsClean(s) && IsClean(t)
    ensures IsClean(s + t)
  {
  }

  lemma PiecesAreClean(t: Timestamp)
    requires RealTimestamp(t)
    ensures IsClean(Format(t.date)) && IsClean(Pad2(t.hour)) && IsClean(Pad2(t.minute)) && IsClean(Pad2(t.second))
      && IsClean(Fraction(t.nanos))
  {
    assert IsClean(Pad4(t.date.year)) && IsClean(Pad2(t.date.month)) && IsClean(Pad2(t.date.day));
    var digits := Digits(t.nanos, 9);
    assert IsClean(digits) && IsClean(TrimZeros(digits));
  }

  lemma LocalIsClean(t: Timestamp)
    requires RealTimestamp(t)
    ensures IsClean(FormatLocal(t))
  {
    PiecesAreClean(t);
    hide IsClean, Format, Pad2, Fraction, RealTimestamp;
    forall a, b | IsClean(a) && IsClean(b) ensures IsClean(a + b) {
      CleanAppend(a, b);
    }
    assert IsClean("T") && IsClean(":") && IsClean("Z") by { Separators(); }
  }

  lemma TimestampIsBytes(t: Timestamp)
    requires RealTimestamp(t)
    ensures IsClean(FormatTimestamp(t)) && IsBytes(FormatTimestamp(t))
  {
    LocalIsClean(t);
    Separators();
    CleanAppend(FormatLocal(t), "Z");
  }

  lemma Separators()
    ensures IsClean("T") && IsClean(":") && IsClean("Z")
  {
  }

  lemma TextDecodes(text: string, at: Timestamp, id: string)
    requires IsClean(text) && ParseTimestamp(text) == Some(at) && IsBytes(id) && id != ""
    ensures IsBytes(text + "|" + id) && DecodeOf(Escape(text + "|" + id)) == Some((at, id))
  {
    hide ParseTimestamp, Escape, Unescape;
    var raw := text + "|" + id;
    UnescapeEscape(raw);
    var k := BarAt(raw);
    assert raw[|text|] == '|';
    assert k == |text| && raw[..k] == text && raw[k + 1..] == id;
  }

  /** Decoding gives back the timestamp and the id of every cursor, whatever bytes the id has. */
  lemma RoundTrip(at: Timestamp, id: string)
    requires RealTimestamp(at) && IsBytes(id) && id != ""
    ensures DecodeOf(EncodeOf(at, id)) == Some((at, id))
  {
    hide ParseTimestamp, FormatTimestamp, Escape, DecodeOf;
    TimestampIsBytes(at);
    TimestampParses(at);
    TextDecodes(FormatTimestamp(at), at, id);
  }

  /** A cursor written with the offset of any zone decodes to the same instant, in UTC, and the same id. */
  lemma OtherZoneDecodes(at: Timestamp, o: int, id: string)
    requires RealTime(at) && -1440 < o < 1440 && RealTimestamp(ShiftMinutes(at, o)) && IsBytes(id) && id != ""
    ensures var text := FormatLocal(ShiftMinutes(at, o)) + FormatOffset(o);
      IsBytes(text + "|" + id) && DecodeOf(Escape(text + "|" + id)) == Some((at, id))
  {
    LocalIsClean(ShiftMinutes(at, o));
    assert IsClean(FormatOffset(o));
    hide ParseTimestamp, FormatLocal, Escape, DecodeOf, FormatOffset, ShiftMinutes;
    CleanAppend(FormatLocal(ShiftMinutes(at, o)), FormatOffset(o));
    OffsetTimestampParses(at, o);
    TextDecodes(FormatLocal(ShiftMinutes(at, o)) + FormatOffset(o), at, id);
  }

  /** The empty id is the one that is lost. */
  lemma EmptyIdIsRejected(at: Timestamp)
    requires RealTimestamp(at)
    ensures DecodeOf(EncodeOf(at, "")) == None
  {
    hide ParseTimestamp, FormatTimestamp, Escape, Unescape;
    TimestampIsBytes(at);
    var text := FormatTimestamp(at);
    UnescapeEscape(text + "|" + "");
    assert (text + "|" + "")[|text|] == '|';
  }

  method EncodeCursor(at: Timestamp, id: string) returns (cursor: string)
    requires RealTimestamp(at) && IsBytes(id)
    ensures cursor == EncodeOf(at, id)
  {
    TimestampIsBytes(at);
    cursor := EscapeBytes(FormatTimestamp(at) + "|" + id);
  }

  method EscapeBytes(raw: string) returns (dst: string)
    requires IsBytes(raw)
    ensures dst == Escape(raw)
  {
    dst := "";
    for i := 0 to |raw|
      invariant dst == Escape(raw[..i])
    {
      EscapeAppend(raw[..i], raw[i]);
      assert raw[..i + 1] == raw[..i] + [raw[i]];
      if IsPlain(raw[i]) {
        dst := dst + [raw[i]];
      } else {
        dst := dst + ['%', HEX[raw[i] as int / 16], HEX[raw[i] as int % 16]];
      }
    }
    assert raw[..|raw|] == raw;
  }

  lemma {:induction false} EscapeAppend(s: string, c: char)
    requires IsBytes(s) && c as int < 256
    ensures IsBytes(s + [c]) && Escape(s + [c]) == Escape(s) + EscapeChar(c)
  {
    hide EscapeChar;
    if s == "" {
      assert s + [c] == [c] && [c][1..] == "" && EscapeChar(c) + "" == EscapeChar(c);
    } else {
      EscapeAppend(s[1..], c);
      assert (s + [c])[1..] == s[1..] + [c];
      assert EscapeChar(s[0]) + (Escape(s[1..]) + EscapeChar(c)) == EscapeChar(s[0]) + Escape(s[1..]) + EscapeChar(c);
    }
  }

  method DecodeCursor(cursor: string) returns (r: Option<(Timestamp, string)>)
    ensures r == DecodeOf(cursor)
  {
    var out := "";
    var i := 0;
    assert cursor[0..] == cursor;
    AppendNothing(Unescape(cursor));
    while i < |cursor|
      invariant 0 <= i <= |cursor|
      invariant Unescape(cursor) == Append(out, Unescape(cursor[i..]))
    {
      var rest := cursor[i..];
      if cursor[i] == '%' {
        if i + 2 >= |cursor| || !IsHex(cursor[i + 1]) || !IsHex(cursor[i + 2]) {
          assert Unescape(rest) == None;
          return None;
        }
        assert rest[1] == cursor[i + 1] && rest[2] == cursor[i + 2] && rest[3..] == cursor[i + 3..];
        AppendOne(out, (16 * HexValue(cursor[i + 1]) + HexValue(cursor[i + 2])) as char, Unescape(cursor[i + 3..]));
        out := out + [(16 * HexValue(cursor[i + 1]) + HexValue(cursor[i + 2])) as char];
        i := i + 3;
      } else {
        assert rest[1..] == cursor[i + 1..];
        AppendOne(out, cursor[i], Unescape(cursor[i + 1..]));
        out := out + [cursor[i]];
        i := i + 1;
      }
    }
    assert cursor[i..] == "" && out + "" == out;
    r := Split(out);
  }

  function Append(s: string, t: Option<string>): Option<string> {
    if t.None? then None else Some(s + t.value)
  }

  lemma AppendNothing(t: Option<string>)
    ensures Append("", t) == t
  {
    if t.Some? {
      assert "" + t.value == t.value;
    }
  }

  lemma AppendOne(s: string, c: char, t: Option<string>)
    ensures Append(s, Prepend(c, t)) == Append(s + [c], t)
  {
    if t.Some? {
      assert s + ([c] + t.value) == s + [c] + t.value;
    }
  }
}
