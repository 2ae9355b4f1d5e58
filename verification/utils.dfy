/**
  Model of utils.js: the configuration record, week-day keys, wall-clock
  parsing, day-time construction and phone extraction. Time is counted in
  whole minutes from an arbitrary epoch; a calendar day is 1440 minutes.
*/
module Utils {
  import opened Options
  import opened JsText

  datatype WeekKey = Sun | Mon | Tue | Wed | Thu | Fri | Sat

  /** What dayjs's `day()` returns: 0 is Sunday, 6 is Saturday. */
  type Weekday = d: int | 0 <= d < 7

  const MinutesPerDay := 1440

  /** A calendar day: local midnight falls at minute `day * 1440`, and
      `weekday` is the day of the week the calendar gives it. */
  datatype Date = Date(day: int, weekday: Weekday)

  /** A wall-clock time of day as `parseHHmm` reads it from the configuration. */
  datatype HourMinute = HourMinute(hour: int, minute: int)

  predicate IsClockTime(t: HourMinute) {
    0 <= t.hour < 24 && 0 <= t.minute < 60
  }

  datatype OpeningRule = OpeningRule(open: HourMinute, close: HourMinute)

  /** The fields of config.json the core reads; a week day without an entry is closed. */
  datatype Config = Config(
    cabinCount: int,
    slotMinutes: int,
    advanceDays: int,
    priceSingle: int,
    pricePerPerson: int,
    openingHours: map<WeekKey, OpeningRule>)

  /** getWeekKey: the configuration key of a day of the week. */
  function GetWeekKey(d: Weekday): (k: WeekKey)
    ensures WeekIndex(k) == d
  {
    if d == 0 then Sun
    else if d == 1 then Mon
    else if d == 2 then Tue
    else if d == 3 then Wed
    else if d == 4 then Thu
    else if d == 5 then Fri
    else Sat
  }

  /** The position of a key in `["sun", "mon", "tue", "wed", "thu", "fri", "sat"]`. */
  function WeekIndex(k: WeekKey): Weekday {
    match k
    case Sun => 0
    case Mon => 1
    case Tue => 2
    case Wed => 3
    case Thu => 4
    case Fri => 5
    case Sat => 6
  }

  /** Every key is the key of exactly one week day. */
  lemma WeekKeysBijective()
    ensures forall a: Weekday, b: Weekday :: GetWeekKey(a) == GetWeekKey(b) ==> a == b
    ensures forall k :: GetWeekKey(WeekIndex(k)) == k
  {
    forall a: Weekday, b: Weekday | GetWeekKey(a) == GetWeekKey(b) ensures a == b {
      assert WeekIndex(GetWeekKey(a)) == a;
    }
  }

  /** `date.add(n, "day")`: the week day advances with the day count. */
  function AddDays(d: Date, n: int): (r: Date)
    ensures r.day == d.day + n
    ensures (r.weekday - d.weekday - n) % 7 == 0
  {
    Date(d.day + n, (d.weekday + n) % 7)
  }

  lemma AddDaysCompose(d: Date, a: int, b: int)
    ensures AddDays(AddDays(d, a), b) == AddDays(d, a + b)
  {
    var w1 := (d.weekday + a) % 7;
    assert (w1 + b) % 7 == (d.weekday + a + b) % 7 by {
      var q := (d.weekday + a) / 7;
      assert d.weekday + a == 7 * q + w1;
      assert d.weekday + a + b == (w1 + b) + 7 * q;
    }
  }

  /**
    parseHHmm: split at ':' and read the hour and minute with Number(). A
    text without a colon has no minute part, and the hour is what the text
    before the first colon reads as.
  */
  function ParseHHmm(text: string): (r: Option<HourMinute>)
    ensures ':' !in text ==> r.None?
    ensures r.Some? ==> exists i :: 0 <= i < |text| && text[i] == ':' && ':' !in text[..i] &&
                                    ParseInteger(text[..i]) == Some(r.value.hour)
    ensures r.Some? ==> |Split(text, ':')| >= 2 && ParseInteger(Split(text, ':')[1]) == Some(r.value.minute)
  {
    var parts := Split(text, ':');
    if |parts| < 2 then None
    else
      SplitHead(text, ':');
      assert text[|parts[0]|] == ':';
      match (ParseInteger(parts[0]), ParseInteger(parts[1]))
      case (Some(h), Some(m)) => Some(HourMinute(h, m))
      case _ => None
  }

  /**
    parseHHmm on any text with a colon, written as `a:b` or `a:b:rest` with
    no colon in `a` or `b`: a time of day exactly when both `a` and `b` read
    as integers, with hour `a` and minute `b`; whatever follows a second
    colon is ignored.
  */
  lemma ParseHHmmParts(a: string, b: string, rest: Option<string>)
    requires ':' !in a && ':' !in b
    ensures var text := a + ":" + b + (if rest.Some? then ":" + rest.value else "");
            ParseHHmm(text) ==
              if ParseInteger(a).Some? && ParseInteger(b).Some?
              then Some(HourMinute(ParseInteger(a).value, ParseInteger(b).value))
              else None
  {
    var tail := if rest.Some? then ":" + rest.value else "";
    var text := a + ":" + b + tail;
    assert text == a + [':'] + (b + tail);
    if rest.Some? {
      assert b + tail == b + [':'] + rest.value;
      SplitFirst(b, ':', rest.value);
    } else {
      assert b + tail == b;
      SplitWhole(b, ':');
    }
    SplitFirst(a, ':', b + tail);
  }

  /** The "H:M" spelling of a time of day. */
  function FormatHHmm(t: HourMinute): string
    requires t.hour >= 0 && t.minute >= 0
  {
    IntToString(t.hour) + [':'] + IntToString(t.minute)
  }

  lemma NoColonInSpelling(n: int)
    ensures ':' !in IntToString(n)
  {
    var digits := NatToString(if n < 0 then -n else n);
    assert forall i :: 0 <= i < |digits| ==> IsDigit(digits[i]);
    if n < 0 {
      assert forall i :: 1 <= i < |IntToString(n)| ==> IntToString(n)[i] == digits[i - 1];
    }
  }

  lemma SplitFormatHHmm(t: HourMinute)
    requires t.hour >= 0 && t.minute >= 0
    ensures Split(FormatHHmm(t), ':') == [IntToString(t.hour), IntToString(t.minute)]
  {
    var h, m := IntToString(t.hour), IntToString(t.minute);
    NoColonInSpelling(t.hour);
    NoColonInSpelling(t.minute);
    assert Join([h, m], ':') == h + [':'] + m;
    SplitJoin([h, m], ':');
  }

  /** Reading back a written time of day gives the same hour and minute
      (for any hour and minute up to 2^53, beyond which Number rounds). */
  lemma ParseFormatHHmm(t: HourMinute)
    requires t.hour >= 0 && t.minute >= 0
    ensures t.hour <= MaxSafe && t.minute <= MaxSafe ==> ParseHHmm(FormatHHmm(t)) == Some(t)
  {
    SplitFormatHHmm(t);
    ParseIntegerOfSpelling(t.hour);
    ParseIntegerOfSpelling(t.minute);
  }

  /** makeDayTime: the minute at which wall-clock time `t` falls on `date`;
      seconds and milliseconds are zero because time is counted in minutes. */
  function MakeDayTime(date: Date, t: HourMinute): (r: int)
    ensures IsClockTime(t) ==> r / MinutesPerDay == date.day
    ensures IsClockTime(t) ==> r % MinutesPerDay == t.hour * 60 + t.minute
  {
    date.day * MinutesPerDay + t.hour * 60 + t.minute
  }

  const WhatsappPrefix := "whatsapp:"

  /** toPhone: the sender id with its first "whatsapp:" removed. */
  function ToPhone(jid: string): (phone: string)
    ensures (forall i :: !OccursAt(jid, WhatsappPrefix, i)) ==> phone == jid
    ensures forall i :: FirstOccurrence(jid, WhatsappPrefix, i) ==>
      phone == jid[..i] + jid[i + |WhatsappPrefix|..]
  {
    RemoveFirst(jid, WhatsappPrefix)
  }
}
