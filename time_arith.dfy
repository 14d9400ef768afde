/**
 * Minute arithmetic of the availability service: "HH:MM" text to minutes and
 * back, cutting a window into fixed-length slots, and the half-open interval
 * overlap test that both schedulers use.
 */
module TimeArith {
  import opened Wrappers
  import opened Text

  /**
   * `Number(s)` on the texts a time field can hold: after trimming, the empty
   * text is 0 and an optionally signed run of decimal digits is its value;
   * anything else is NaN, written None.
   */
  function JsNumber(s: string): (r: Option<int>)
  {
    NumberOfTrimmed(Trim(s))
  }

  function NumberOfTrimmed(t: string): (r: Option<int>)
  {
    if t == [] then Some(0)
    else if t[0] == '-' || t[0] == '+' then
      var body := t[1..];
      if body != [] && AllDigits(body) then
        var v: int := DecimalValue(body);
        Some(if t[0] == '-' then -v else v)
      else None
    else if AllDigits(t) then Some(DecimalValue(t))
    else None
  }

  lemma JsNumberOfDigits(s: string)
    requires AllDigits(s)
    ensures JsNumber(s) == Some(DecimalValue(s))
  {
    TrimNoop(s);
  }

  /** JS `v || dflt` on a nullable number: null and 0 both give the default. */
  function OrDefault(v: Option<int>, dflt: int): (r: int)
    ensures v.Some? && v.value != 0 ==> r == v.value
    ensures v.None? || v.value == 0 ==> r == dflt
  {
    if v.Some? && v.value != 0 then v.value else dflt
  }

  /** Position of the first ':' in `s`, or `|s|` when there is none. */
  function ColonIndex(s: string): (i: nat)
    ensures i <= |s|
    ensures forall k :: 0 <= k < i ==> s[k] != ':'
    ensures i < |s| ==> s[i] == ':'
  {
    if s == [] || s[0] == ':' then 0 else 1 + ColonIndex(s[1..])
  }

  lemma {:induction false} ColonIndexOfConcat(a: string, b: string)
    requires forall k :: 0 <= k < |a| ==> a[k] != ':'
    ensures ColonIndex(a + ":" + b) == |a|
  {
    if a != [] {
      assert (a + ":" + b)[1..] == a[1..] + ":" + b;
      ColonIndexOfConcat(a[1..], b);
    }
  }

  /**
   * `timeToMinutes`: split at ':', convert the first two fields with `Number`
   * and return `hours * 60 + minutes`. A missing second field or a field that
   * is not a number makes the result NaN, written None.
   */
  function TimeToMinutes(time: string): (r: Option<int>)
  {
    var i := ColonIndex(time);
    if i == |time| then None
    else
      var rest := time[i + 1..];
      HoursAndMinutes(JsNumber(time[..i]), JsNumber(rest[..ColonIndex(rest)]))
  }

  /** `hours * 60 + minutes`, NaN when either operand is. */
  function HoursAndMinutes(hours: Option<int>, minutes: Option<int>): Option<int> {
    if hours.Some? && minutes.Some? then Some(hours.value * 60 + minutes.value) else None
  }

  lemma ColonIndexOfDigits(s: string)
    requires AllDigits(s)
    ensures ColonIndex(s) == |s|
  {
  }

  lemma TimeFields(hh: string, mm: string)
    requires AllDigits(hh) && AllDigits(mm)
    ensures TimeToMinutes(hh + ":" + mm) == HoursAndMinutes(JsNumber(hh), JsNumber(mm))
  {
    var s := hh + ":" + mm;
    ColonIndexOfConcat(hh, mm);
    ColonIndexOfDigits(mm);
    assert s[..|hh|] == hh;
    assert s[|hh| + 1..] == mm;
    assert mm[..|mm|] == mm;
  }

  /** JS `a % b` for positive `b`: the remainder takes the sign of `a`. */
  function JsRem(a: int, b: int): (r: int)
    requires b > 0
    ensures -b < r < b
    ensures a >= 0 ==> r == a % b
    ensures a < 0 ==> r <= 0
  {
    if a >= 0 then a % b else -((-a) % b)
  }

  /** `minutesToTime`: floored hours and JS remainder minutes, each padded to two characters. */
  function MinutesToTime(minutes: int): (r: string)
  {
    PadStart2(IntToString(minutes / 60)) + ":" + PadStart2(IntToString(JsRem(minutes, 60)))
  }

  /** "HH:MM" with digit fields denotes 60 * HH + MM. */
  lemma TimeToMinutesOfDigits(hh: string, mm: string, m: int)
    requires AllDigits(hh) && AllDigits(mm)
    requires m == 60 * DecimalValue(hh) + DecimalValue(mm)
    ensures TimeToMinutes(hh + ":" + mm) == Some(m)
  {
    TimeFields(hh, mm);
    JsNumberOfDigits(hh);
    JsNumberOfDigits(mm);
    HoursAndMinutesOfValues(DecimalValue(hh), DecimalValue(mm), m);
  }

  lemma HoursAndMinutesOfValues(h: int, n: int, m: int)
    requires m == 60 * h + n
    ensures HoursAndMinutes(Some(h), Some(n)) == Some(m)
  {
  }

  lemma NatToStringShort(n: nat)
    requires n < 100
    ensures |NatToString(n)| <= 2
  {
  }

  lemma MinutesToTimeNonNegative(m: int)
    requires m >= 0
    ensures MinutesToTime(m) == PadStart2(NatToString(m / 60)) + ":" + PadStart2(NatToString(m % 60))
  {
  }

  /**
   * For a minute count of the day range (and beyond, up to 99 hours) the text
   * is exactly two hour digits, ':' and two minute digits, denoting the
   * floored hour and the remaining minutes.
   */
  lemma MinutesToTimeShape(m: int)
    requires 0 <= m < 6000
    ensures |MinutesToTime(m)| == 5 && MinutesToTime(m)[2] == ':'
    ensures AllDigits(MinutesToTime(m)[..2]) && AllDigits(MinutesToTime(m)[3..])
    ensures DecimalValue(MinutesToTime(m)[..2]) == m / 60
    ensures DecimalValue(MinutesToTime(m)[3..]) == m % 60
  {
    var hh := PadStart2(NatToString(m / 60));
    var mm := PadStart2(NatToString(m % 60));
    NatToStringShort(m / 60);
    NatToStringShort(m % 60);
    DecimalValuePadStart2(m / 60);
    DecimalValuePadStart2(m % 60);
    var r := MinutesToTime(m);
    MinutesToTimeNonNegative(m);
    assert r[..2] == hh;
    assert r[3..] == mm;
  }

  /** Formatting then parsing gives back every non-negative minute count. */
  lemma MinutesRoundTrip(m: int)
    requires m >= 0
    ensures TimeToMinutes(MinutesToTime(m)) == Some(m)
  {
    MinutesToTimeNonNegative(m);
    DecimalValuePadStart2(m / 60);
    DecimalValuePadStart2(m % 60);
    TimeToMinutesOfDigits(PadStart2(NatToString(m / 60)), PadStart2(NatToString(m % 60)), m);
  }

  /** A half-open span of minutes `[start, end)`. */
  datatype Interval = Interval(start: int, end: int)

  /** The slot boundaries of `generateSlotsInWindow`: `d`-minute spans from `start` while one still ends by `end`. */
  function WindowSlots(start: int, end: int, d: int): seq<Interval>
    requires d > 0
    decreases end - start
  {
    if start + d <= end then [Interval(start, start + d)] + WindowSlots(start + d, end, d) else []
  }

  /**
   * The slots are contiguous and each exactly `d` long, the first begins at
   * `start`, the last ends by `end`, and what is left after it (or the whole
   * window, when there is no slot) is shorter than `d` and dropped.
   */
  lemma {:induction false} WindowSlotsShape(start: int, end: int, d: int)
    requires d > 0
    ensures var w := WindowSlots(start, end, d);
      && (w != [] ==> w[0].start == start)
      && (forall i :: 0 <= i < |w| ==> w[i].end == w[i].start + d)
      && (forall i :: 0 <= i < |w| - 1 ==> w[i + 1].start == w[i].end)
      && (w != [] ==> w[|w| - 1].end <= end < w[|w| - 1].end + d)
      && (w == [] ==> end < start + d)
    decreases end - start
  {
    var w := WindowSlots(start, end, d);
    if start + d <= end {
      var rest := WindowSlots(start + d, end, d);
      WindowSlotsShape(start + d, end, d);
      assert w == [Interval(start, start + d)] + rest;
      assert forall i :: 1 <= i < |w| ==> w[i] == rest[i - 1];
    }
  }

  /** Every slot lies inside its window: it starts no earlier and ends no later. */
  lemma {:induction false} WindowSlotsInside(start: int, end: int, d: int)
    requires d > 0
    ensures forall slot :: slot in WindowSlots(start, end, d) ==> start <= slot.start && slot.end <= end
    decreases end - start
  {
    if start + d <= end {
      WindowSlotsInside(start + d, end, d);
      assert WindowSlots(start, end, d) == [Interval(start, start + d)] + WindowSlots(start + d, end, d);
    }
  }

  /** The number of slots is `floor((end - start) / d)`, and none when the window ends before it starts. */
  lemma {:induction false} WindowSlotsCount(start: int, end: int, d: int)
    requires d > 0
    ensures |WindowSlots(start, end, d)| == if end < start then 0 else (end - start) / d
    decreases end - start
  {
    if start + d <= end {
      WindowSlotsCount(start + d, end, d);
      DivStep(end - start, d);
    } else if start <= end {
      DivUnique(end - start, d, 0);
    }
  }

  lemma DivStep(x: int, d: int)
    requires 0 < d <= x
    ensures x / d == (x - d) / d + 1
  {
    var q := (x - d) / d;
    assert q * d <= x - d < q * d + d;
    assert (q + 1) * d == q * d + d;
    DivUnique(x, d, q + 1);
  }

  lemma DivUnique(x: int, d: int, q: int)
    requires d > 0 && q >= 0 && q * d <= x < q * d + d
    ensures x / d == q
  {
    var q2 := x / d;
    assert q2 * d <= x < q2 * d + d;
    if q2 > q {
      MulMonotone(q + 1, q2, d);
    } else if q2 < q {
      MulMonotone(q2 + 1, q, d);
    }
  }

  lemma MulMonotone(a: int, b: int, d: int)
    requires a <= b && d >= 0
    ensures a * d <= b * d
  {
    assert b * d - a * d == (b - a) * d;
  }

  /** The start and end labels of a slot, as `minutesToTime` writes them. */
  datatype SlotText = SlotText(startTime: string, endTime: string)

  function Label(slot: Interval): SlotText {
    SlotText(MinutesToTime(slot.start), MinutesToTime(slot.end))
  }

  function Labels(slots: seq<Interval>): (r: seq<SlotText>)
    ensures |r| == |slots|
  {
    seq(|slots|, i requires 0 <= i < |slots| => Label(slots[i]))
  }

  lemma LabelsAppend(done: seq<Interval>, slot: Interval)
    ensures Labels(done + [slot]) == Labels(done) + [Label(slot)]
  {
  }

  /** What `generateSlotsInWindow` returns; a window bound that is NaN gives no slot. */
  function SlotsInWindow(startTime: string, endTime: string, slotDuration: int): seq<SlotText>
    requires slotDuration > 0
  {
    var start := TimeToMinutes(startTime);
    var end := TimeToMinutes(endTime);
    if start.Some? && end.Some? then Labels(WindowSlots(start.value, end.value, slotDuration)) else []
  }

  /** A window whose bounds parse yields one label pair per slot of `WindowSlots`, in order. */
  lemma SlotsInWindowParsed(startTime: string, endTime: string, d: int, start: int, end: int)
    requires d > 0
    requires TimeToMinutes(startTime) == Some(start) && TimeToMinutes(endTime) == Some(end)
    ensures |SlotsInWindow(startTime, endTime, d)| == |WindowSlots(start, end, d)|
    ensures forall i :: 0 <= i < |SlotsInWindow(startTime, endTime, d)| ==>
      SlotsInWindow(startTime, endTime, d)[i] == Label(WindowSlots(start, end, d)[i])
  {
  }

  /** A window with an unparsable bound yields no slot at all. */
  lemma SlotsInWindowMalformed(startTime: string, endTime: string, d: int)
    requires d > 0
    requires TimeToMinutes(startTime).None? || TimeToMinutes(endTime).None?
    ensures SlotsInWindow(startTime, endTime, d) == []
  {
  }

  /** `generateSlotsInWindow`: parse both bounds, then step through the window; a NaN bound makes the loop run zero times. */
  method GenerateSlotsInWindow(startTime: string, endTime: string, slotDuration: int) returns (slots: seq<SlotText>)
    requires slotDuration > 0
    ensures slots == SlotsInWindow(startTime, endTime, slotDuration)
  {
    var start := TimeToMinutes(startTime);
    var end := TimeToMinutes(endTime);
    if start.None? || end.None? {
      return [];
    }
    slots := StepSlots(start.value, end.value, slotDuration);
    SlotsInWindowOfBounds(startTime, endTime, slotDuration, start.value, end.value);
  }

  /** The loop of `generateSlotsInWindow`: from `start`, emit a `d`-minute slot while one still ends by `end`. */
  method StepSlots(start: int, end: int, d: int) returns (slots: seq<SlotText>)
    requires d > 0
    ensures slots == Labels(WindowSlots(start, end, d))
  {
    slots := [];
    var current := start;
    ghost var done: seq<Interval> := [];
    while current + d <= end
      invariant WindowSlots(start, end, d) == done + WindowSlots(current, end, d)
      invariant slots == Labels(done)
      decreases end - current
    {
      var slot := Interval(current, current + d);
      SlotsStep(WindowSlots(start, end, d), done, slot, current, end, d);
      LabelsAppend(done, slot);
      slots := slots + [Label(slot)];
      done := done + [slot];
      current := current + d;
    }
    SlotsDone(WindowSlots(start, end, d), done, current, end, d);
  }

  lemma SlotsDone(whole: seq<Interval>, done: seq<Interval>, current: int, end: int, d: int)
    requires d > 0 && end < current + d
    requires whole == done + WindowSlots(current, end, d)
    ensures whole == done
  {
    assert WindowSlots(current, end, d) == [];
    assert done + [] == done;
  }

  lemma SlotsInWindowOfBounds(startTime: string, endTime: string, d: int, start: int, end: int)
    requires d > 0
    requires TimeToMinutes(startTime) == Some(start) && TimeToMinutes(endTime) == Some(end)
    ensures SlotsInWindow(startTime, endTime, d) == Labels(WindowSlots(start, end, d))
  {
  }

  lemma SlotsStep(whole: seq<Interval>, done: seq<Interval>, slot: Interval, current: int, end: int, d: int)
    requires d > 0 && current + d <= end && slot == Interval(current, current + d)
    requires whole == done + WindowSlots(current, end, d)
    ensures whole == (done + [slot]) + WindowSlots(current + d, end, d)
  {
    assert WindowSlots(current, end, d) == [slot] + WindowSlots(current + d, end, d);
  }

  /**
   * The instant of `new Date(date + "T" + hhmm + ":00")` in minutes: valid
   * only for two-digit hours up to 24 and two-digit minutes up to 59, with 24
   * allowed only as "24:00"; anything else is an Invalid Date, written None.
   */
  function SlotInstant(midnight: int, hhmm: string): (r: Option<int>)
  {
    if |hhmm| == 5 && hhmm[2] == ':' && AllDigits(hhmm[..2]) && AllDigits(hhmm[3..])
       && DecimalValue(hhmm[..2]) <= 24 && DecimalValue(hhmm[3..]) <= 59
       && (DecimalValue(hhmm[..2]) == 24 ==> DecimalValue(hhmm[3..]) == 0)
    then Some(midnight + 60 * DecimalValue(hhmm[..2]) + DecimalValue(hhmm[3..]))
    else None
  }

  /** Every minute of the day, up to and including 24:00, formats to a valid instant at that offset. */
  lemma SlotInstantOfMinutes(midnight: int, m: int)
    requires 0 <= m <= 1440
    ensures SlotInstant(midnight, MinutesToTime(m)) == Some(midnight + m)
  {
    MinutesToTimeShape(m);
  }

  /** Past 24:00 the formatted time is no valid instant. */
  lemma SlotInstantPastMidnight(midnight: int, m: int)
    requires 1440 < m < 6000
    ensures SlotInstant(midnight, MinutesToTime(m)) == None
  {
    MinutesToTimeShape(m);
  }

  predicate InSpan(t: int, start: int, end: int) {
    start <= t < end
  }

  /** The half-open overlap test `aStart < bEnd && aEnd > bStart`. */
  predicate Overlaps(aStart: int, aEnd: int, bStart: int, bEnd: int) {
    aStart < bEnd && aEnd > bStart
  }

  /** For non-empty spans the test holds exactly when some minute lies in both. */
  lemma OverlapsIffSharedMinute(aStart: int, aEnd: int, bStart: int, bEnd: int)
    requires aStart < aEnd && bStart < bEnd
    ensures Overlaps(aStart, aEnd, bStart, bEnd) <==>
      exists t :: InSpan(t, aStart, aEnd) && InSpan(t, bStart, bEnd)
  {
    if Overlaps(aStart, aEnd, bStart, bEnd) {
      var t := if aStart < bStart then bStart else aStart;
      assert InSpan(t, aStart, aEnd) && InSpan(t, bStart, bEnd);
    }
  }

  lemma OverlapsSymmetric(aStart: int, aEnd: int, bStart: int, bEnd: int)
    ensures Overlaps(aStart, aEnd, bStart, bEnd) == Overlaps(bStart, bEnd, aStart, aEnd)
  {
  }

  /** Back-to-back spans do not overlap: a slot ending when an appointment starts stays free. */
  lemma AdjacentDoNotOverlap(a: int, b: int, c: int)
    ensures !Overlaps(a, b, b, c)
  {
  }
}
