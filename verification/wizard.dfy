/**
  Model of the reservation wizard. It exists twice in the source: the
  minimal handlers of index.js (date, slot, cabin, confirm) and the extended
  handlers of bookingLogic.js, which add a party-size step and a price. Each
  handler is a pure function from the caller's session, the message text and
  the current store to the new session, the record to append (only confirm
  appends) and the reply.
*/
module Wizard {
  import opened Options
  import opened Seqs
  import opened JsText
  import opened Utils
  import opened Schedule
  import opened Storage
  import opened Availability
  import opened Sessions
  import opened Replies

  datatype Variant = Minimal | Extended

  /** The effect of one message on the caller's dialogue. */
  datatype Outcome = Outcome(session: Session, appended: Option<Booking>, reply: Reply)

  /**
    What the handlers read from outside the store: the chat id, the clock in
    minutes, today's date in the configured zone, a fresh record id, and the
    calendar's reading of a YYYY-MM-DD text. The calendar reads every such
    text as some day: an impossible one such as 2024-02-30 rolls over to a
    later day, as the date library does.
  */
  datatype Env = Env(jid: string, newId: string, now: int, today: Date, calendar: string -> Date)

  /** At most this many slots are listed in the slot menu. */
  const MenuLimit := 30

  const YesWords: seq<string> := ["да", "yes", "y", "+", "ok"]
  const NoWords: seq<string> := ["нет", "no", "n", "-", "cancel"]

  /** The dates the date menu lists: today and the following days. */
  function Horizon(today: Date, n: int): (dates: seq<Date>)
    ensures |dates| == if n < 0 then 0 else n
    ensures forall i :: 0 <= i < |dates| ==> dates[i] == AddDays(today, i)
    decreases n
  {
    if n <= 0 then [] else Horizon(today, n - 1) + [AddDays(today, n - 1)]
  }

  /** The text has the shape `dddd-dd-dd` of the date pattern. */
  predicate IsDateShape(text: string) {
    && |text| == 10 && text[4] == '-' && text[7] == '-'
    && AllDigits(text[..4]) && AllDigits(text[5..7]) && AllDigits(text[8..])
  }

  /** How the date step reads its input. */
  datatype DateChoice = Unrecognised | Listed(day: Date) | Literal(parsed: Date)

  function DayOf(c: DateChoice): Option<Date> {
    match c
    case Unrecognised => None
    case Listed(d) => Some(d)
    case Literal(d) => Some(d)
  }

  /** A menu number in `1..advanceDays + 1` names that day of the horizon;
      otherwise a `dddd-dd-dd` text is handed to the calendar. */
  function ResolveDate(cfg: Config, env: Env, text: string): (c: DateChoice)
    ensures c.Listed? <==> exists n :: ParseInteger(text) == Some(n) && 1 <= n <= cfg.advanceDays + 1
    ensures c.Listed? ==> c.day == AddDays(env.today, ParseInteger(text).value - 1)
    ensures c.Literal? ==> IsDateShape(text) && c.parsed == env.calendar(text)
    ensures c.Unrecognised? <==> !c.Listed? && !IsDateShape(text)
  {
    var num := ParseInteger(text);
    if num.Some? && 1 <= num.value <= cfg.advanceDays + 1 then Listed(AddDays(env.today, num.value - 1))
    else if IsDateShape(text) then Literal(env.calendar(text))
    else Unrecognised
  }

  /** The generated slots that still have a free cabin, in generation order. */
  function OpenSlots(slots: seq<Slot>, store: Store, cabinCount: int): (open: seq<Slot>)
    ensures forall x :: x in open <==> x in slots && CountFreeCabins(x, store, cabinCount) > 0
    ensures IsSubsequence(open, slots)
  {
    Filter(slots, x => CountFreeCabins(x, store, cabinCount) > 0)
  }

  /** Each open slot is kept as often as the day's list holds it, and a slot with no free cabin not at all. */
  lemma OpenSlotsCounts(slots: seq<Slot>, store: Store, cabinCount: int)
    ensures forall x :: multiset(OpenSlots(slots, store, cabinCount))[x] ==
              if CountFreeCabins(x, store, cabinCount) > 0 then multiset(slots)[x] else 0
  {
    FilterCounts(slots, x => CountFreeCabins(x, store, cabinCount) > 0);
  }

  /** The lines of the slot menu: the first thirty open slots with their free counts. */
  function Menu(open: seq<Slot>, store: Store, cabinCount: int): (entries: seq<SlotFree>)
    ensures |entries| == if |open| < MenuLimit then |open| else MenuLimit
    ensures forall i :: 0 <= i < |entries| ==>
              entries[i].slot == open[i] && entries[i].free == CountFreeCabins(open[i], store, cabinCount)
  {
    var n := if |open| < MenuLimit then |open| else MenuLimit;
    seq(n, i requires 0 <= i < n => SlotFree(open[i], CountFreeCabins(open[i], store, cabinCount)))
  }

  /** Some slot of the day still has a free cabin. */
  predicate Bookable(cfg: Config, store: Store, d: Date) {
    exists x :: x in BuildSlots(cfg, d) && CountFreeCabins(x, store, cfg.cabinCount) > 0
  }

  /**
    The reachable dialogue states: each step has the selections the next
    handlers read, cached and chosen slots last one slot length, offered and
    chosen cabins exist, and the party size and price are either absent
    (minimal wizard) or consistent.
  */
  predicate Valid(v: Variant, cfg: Config, s: Session) {
    && (s.step in {ChooseCabin, ChoosePeople, Confirm} ==> s.slot.Some?)
    && (s.step in {ChoosePeople, Confirm} ==> s.cabin.Some?)
    && (forall x :: x in s.availableSlots ==> x.end - x.start == cfg.slotMinutes)
    && (s.slot.Some? ==> s.slot.value.end - s.slot.value.start == cfg.slotMinutes)
    && (forall c :: c in s.freeCabins ==> 1 <= c <= cfg.cabinCount)
    && (s.cabin.Some? ==> 1 <= s.cabin.value <= cfg.cabinCount)
    && (v == Minimal ==> s.step != ChoosePeople && s.people.None? && s.price.None?)
    && (v == Extended && s.step == Confirm ==> s.people.Some?)
    && (s.people.Some? ==> s.people.value >= 1 && s.price == Some(Price(cfg, s.people.value)))
  }

  lemma FreshIsValid(v: Variant, cfg: Config)
    ensures Valid(v, cfg, Fresh)
  {
  }

  /** handleBookStart: restart at the date step with the selections cleared,
      and list the days that can be picked by number. */
  function HandleBookStart(v: Variant, cfg: Config, env: Env, s: Session): (r: Outcome)
    ensures r.session.step == ChooseDate && r.appended.None?
    ensures r.session.date.None? && r.session.slot.None? && r.session.cabin.None?
    ensures v == Extended ==> r.session.people.None? && r.session.price.None?
    ensures r.session.availableSlots == s.availableSlots && r.session.freeCabins == s.freeCabins
    ensures r.reply.DateMenu? && |r.reply.dates| == (if cfg.advanceDays < 0 then 0 else cfg.advanceDays + 1)
    ensures forall i :: 0 <= i < |r.reply.dates| ==> r.reply.dates[i] == AddDays(env.today, i)
    ensures Valid(v, cfg, s) ==> Valid(v, cfg, r.session)
  {
    var cleared := s.(step := ChooseDate, date := None, slot := None, cabin := None);
    var next := if v == Extended then cleared.(people := None, price := None) else cleared;
    Outcome(next, None, DateMenu(Horizon(env.today, cfg.advanceDays + 1)))
  }

  /** Typing the number a date menu line shows picks exactly that line's day. */
  lemma MenuNumberPicksListedDay(v: Variant, cfg: Config, env: Env, s: Session, n: int)
    requires 1 <= n <= cfg.advanceDays + 1 && n <= MaxSafe
    ensures var menu := HandleBookStart(v, cfg, env, s).reply.dates;
            ResolveDate(cfg, env, IntToString(n)) == Listed(menu[n - 1])
  {
    ParseIntegerOfSpelling(n);
  }

  /**
    handleChooseDate: an unreadable date, a day without slots and a day whose
    slots are all full each leave the session as it was. Otherwise the step
    becomes CHOOSE_SLOT, the session caches every open slot in generation
    order, and the menu shows the first thirty of them.
  */
  function HandleChooseDate(cfg: Config, env: Env, s: Session, text: string, store: Store): (r: Outcome)
    ensures r.appended.None?
    ensures r.reply == DateNotUnderstood <==> ResolveDate(cfg, env, text).Unrecognised?
    ensures r.reply.SlotMenu? <==>
              var day := DayOf(ResolveDate(cfg, env, text));
              day.Some? && Bookable(cfg, store, day.value)
    ensures !r.reply.SlotMenu? ==> r.session == s
    ensures r.reply.SlotMenu? ==>
              var d := r.reply.day;
              var cache := r.session.availableSlots;
              && DayOf(ResolveDate(cfg, env, text)) == Some(d)
              && r.session == s.(step := ChooseSlot, date := Some(d), availableSlots := cache)
              && cache == OpenSlots(BuildSlots(cfg, d), store, cfg.cabinCount)
              && (forall x :: x in cache <==> x in BuildSlots(cfg, d) && CountFreeCabins(x, store, cfg.cabinCount) > 0)
              && IsSubsequence(cache, BuildSlots(cfg, d))
              && |r.reply.entries| == (if |cache| < MenuLimit then |cache| else MenuLimit)
              && (forall i :: 0 <= i < |r.reply.entries| ==>
                    r.reply.entries[i] == SlotFree(cache[i], CountFreeCabins(cache[i], store, cfg.cabinCount)))
  {
    var choice := ResolveDate(cfg, env, text);
    if choice.Unrecognised? then Outcome(s, None, DateNotUnderstood)
    else
      var day := DayOf(choice);
      var slots := BuildSlots(cfg, day.value);
      if slots == [] then Outcome(s, None, NoSlots)
      else
        var open := OpenSlots(slots, store, cfg.cabinCount);
        if open == [] then Outcome(s, None, AllBooked)
        else
          assert open[0] in open;
          Outcome(s.(step := ChooseSlot, date := day, availableSlots := open), None,
                  SlotMenu(day.value, Menu(open, store, cfg.cabinCount)))
  }

  /**
    handleChooseSlot: a number outside `1..|cache|` re-prompts with nothing
    changed. Otherwise the chosen cached slot is recorded, the step becomes
    CHOOSE_CABIN and the cabin menu lists, ascending, exactly the cabins free
    in that slot now.
  */
  function HandleChooseSlot(cfg: Config, s: Session, text: string, store: Store): (r: Outcome)
    ensures r.appended.None?
    ensures r.reply == PickSlot <==>
              !exists k :: ParseInteger(text) == Some(k) && 1 <= k <= |s.availableSlots|
    ensures r.reply == PickSlot ==> r.session == s
    ensures r.reply != PickSlot ==>
              var slot := s.availableSlots[ParseInteger(text).value - 1];
              var free := r.session.freeCabins;
              && r.session == s.(step := ChooseCabin, slot := Some(slot), freeCabins := free)
              && r.reply == CabinMenu(s.date, slot, free)
              && (forall c :: c in free <==> 1 <= c <= cfg.cabinCount && IsCabinFree(c, slot, store))
              && (forall i, j :: 0 <= i < j < |free| ==> free[i] < free[j])
    ensures Valid(Minimal, cfg, s) ==> Valid(Minimal, cfg, r.session)
    ensures Valid(Extended, cfg, s) ==> Valid(Extended, cfg, r.session)
  {
    var idx := ParseInteger(text);
    if idx.None? || idx.value < 1 || idx.value > |s.availableSlots| then Outcome(s, None, PickSlot)
    else
      var slot := s.availableSlots[idx.value - 1];
      assert slot in s.availableSlots;
      var free := FreeCabins(slot, store, cfg.cabinCount);
      Outcome(s.(step := ChooseCabin, slot := Some(slot), freeCabins := free), None, CabinMenu(s.date, slot, free))
  }

  /**
    handleChooseCabin: a cabin the last menu did not offer re-prompts with
    nothing changed. Otherwise the cabin is recorded; the minimal wizard goes
    straight to CONFIRM, the extended one asks for the party size.
  */
  function HandleChooseCabin(v: Variant, s: Session, text: string): (r: Outcome)
    ensures r.appended.None?
    ensures r.reply.PickCabin? <==> !exists c :: ParseInteger(text) == Some(c) && c in s.freeCabins
    ensures r.reply.PickCabin? ==> r.session == s && r.reply.cabins == s.freeCabins
    ensures !r.reply.PickCabin? ==>
              var c := ParseInteger(text).value;
              && r.session == s.(step := if v == Minimal then Confirm else ChoosePeople, cabin := Some(c))
              && r.reply == (if v == Minimal then ConfirmPrompt(s.date, s.slot, Some(c), None, None) else AskPeople(c))
  {
    var n := ParseInteger(text);
    if n.None? || n.value !in s.freeCabins then Outcome(s, None, PickCabin(s.freeCabins))
    else if v == Minimal then
      Outcome(s.(step := Confirm, cabin := Some(n.value)), None, ConfirmPrompt(s.date, s.slot, Some(n.value), None, None))
    else
      Outcome(s.(step := ChoosePeople, cabin := Some(n.value)), None, AskPeople(n.value))
  }

  lemma ChooseCabinKeepsValid(v: Variant, cfg: Config, s: Session, text: string)
    requires Valid(v, cfg, s) && s.step == ChooseCabin
    ensures Valid(v, cfg, HandleChooseCabin(v, s, text).session)
  {
    var n := ParseInteger(text);
    if n.Some? && n.value in s.freeCabins {
      assert 1 <= n.value <= cfg.cabinCount;
    }
  }

  /** `rate` paid once for each of `n` guests. */
  function RateSum(rate: int, n: nat): int {
    if n == 0 then 0 else RateSum(rate, n - 1) + rate
  }

  lemma {:induction false} RateSumIsProduct(rate: int, n: nat)
    ensures RateSum(rate, n) == n * rate
  {
    if n > 0 {
      RateSumIsProduct(rate, n - 1);
    }
  }

  /** The extended price rule: one guest pays the single rate; in a larger
      party each guest pays the per-person rate. */
  function Price(cfg: Config, people: int): (r: int)
    ensures people == 1 ==> r == cfg.priceSingle
    ensures people >= 2 ==> r == RateSum(cfg.pricePerPerson, people)
  {
    if people == 1 then cfg.priceSingle
    else if people >= 2 then RateSumIsProduct(cfg.pricePerPerson, people); people * cfg.pricePerPerson
    else people * cfg.pricePerPerson
  }

  /** For parties of two or more each extra person adds the per-person rate. */
  lemma PriceGrowsPerPerson(cfg: Config, people: int)
    requires people >= 2
    ensures Price(cfg, people + 1) == Price(cfg, people) + cfg.pricePerPerson
  {
  }

  /**
    handleChoosePeople (extended wizard only): a party size that is not a
    whole number of at least one re-prompts with nothing changed; otherwise
    the size and its price are recorded and the step becomes CONFIRM.
  */
  function HandleChoosePeople(cfg: Config, s: Session, text: string): (r: Outcome)
    ensures r.appended.None?
    ensures r.reply == PeopleInvalid <==> !exists n :: ParseInteger(text) == Some(n) && n >= 1
    ensures r.reply == PeopleInvalid ==> r.session == s
    ensures r.reply != PeopleInvalid ==>
              var n := ParseInteger(text).value;
              && r.session == s.(step := Confirm, people := Some(n), price := r.session.price)
              && r.session.price == Some(if n == 1 then cfg.priceSingle else n * cfg.pricePerPerson)
              && r.reply == ConfirmPrompt(s.date, s.slot, s.cabin, Some(n), r.session.price)
    ensures Valid(Extended, cfg, s) && s.step == ChoosePeople ==> Valid(Extended, cfg, r.session)
  {
    var n := ParseInteger(text);
    if n.None? || n.value < 1 then Outcome(s, None, PeopleInvalid)
    else
      var price := Price(cfg, n.value);
      Outcome(s.(step := Confirm, people := Some(n.value), price := Some(price)), None,
              ConfirmPrompt(s.date, s.slot, s.cabin, Some(n.value), Some(price)))
  }

  /** The record confirm writes: the session's cabin and slot, the caller's
      phone, and (extended wizard only) party size and price. */
  function NewBooking(v: Variant, env: Env, s: Session): (b: Booking)
    requires s.slot.Some? && s.cabin.Some?
    ensures b.cabin == s.cabin.value && b.start == s.slot.value.start && b.end == s.slot.value.end
    ensures b.phone == ToPhone(env.jid) && b.id == env.newId && b.createdAt == env.now
    ensures b.people == (if v == Extended then s.people else None)
    ensures b.price == (if v == Extended then s.price else None)
    ensures b.adults.None? && b.children.None? && b.status.None?
  {
    Booking(env.newId, ToPhone(env.jid), s.cabin.value, s.slot.value.start, s.slot.value.end,
            if v == Extended then s.people else None, if v == Extended then s.price else None,
            None, None, None, env.now)
  }

  /**
    handleConfirm: an answer outside both vocabularies (after lower-casing)
    keeps the step; "no" ends the dialogue without writing; "yes" re-reads
    the store and appends exactly one record only if the cabin is still free
    for the slot, ending the dialogue either way.
  */
  function HandleConfirm(v: Variant, env: Env, s: Session, text: string, store: Store): (r: Outcome)
    requires s.slot.Some? && s.cabin.Some?
    ensures r.reply == AnswerYesNo <==> ToLower(text) !in YesWords && ToLower(text) !in NoWords
    ensures r.reply == AnswerYesNo ==> r.session == s
    ensures r.reply != AnswerYesNo ==> r.session == s.(step := Idle)
    ensures r.appended.Some? <==> ToLower(text) in YesWords && IsCabinFree(s.cabin.value, s.slot.value, store)
    ensures r.appended.Some? ==> r.appended.value == NewBooking(v, env, s) && r.reply == Booked(r.appended.value)
    ensures r.appended.Some? && NoOverlap(store) ==> NoOverlap(store + [r.appended.value])
  {
    var answer := ToLower(text);
    var yes := answer in YesWords;
    var no := answer in NoWords;
    if !yes && !no then Outcome(s, None, AnswerYesNo)
    else if no then Outcome(s.(step := Idle), None, Declined)
    else if !IsCabinFree(s.cabin.value, s.slot.value, store) then Outcome(s.(step := Idle), None, CabinTaken)
    else
      var b := NewBooking(v, env, s);
      AppendKeepsNoOverlap(store, b);
      Outcome(s.(step := Idle), Some(b), Booked(b))
  }

  /**
    handleConfirm with the test admin POST makes before it writes: a "yes"
    for a slot that starts before now ends the dialogue without writing.
    Every other answer is handled as written.
  */
  function HandleConfirmChecked(v: Variant, env: Env, s: Session, text: string, store: Store): (r: Outcome)
    requires s.slot.Some? && s.cabin.Some?
    ensures r.reply == AnswerYesNo <==> ToLower(text) !in YesWords && ToLower(text) !in NoWords
    ensures r.reply == AnswerYesNo ==> r.session == s
    ensures r.reply != AnswerYesNo ==> r.session == s.(step := Idle)
    ensures r.appended.Some? <==>
              ToLower(text) in YesWords && IsCabinFree(s.cabin.value, s.slot.value, store) && s.slot.value.start >= env.now
    ensures r.appended.Some? ==> r.appended.value == NewBooking(v, env, s) && r.reply == Booked(r.appended.value)
    ensures r.appended.Some? ==> r.appended.value.start >= env.now
    ensures r.reply == SlotPassed <==>
              ToLower(text) in YesWords && IsCabinFree(s.cabin.value, s.slot.value, store) && s.slot.value.start < env.now
    ensures r.appended.Some? && NoOverlap(store) ==> NoOverlap(store + [r.appended.value])
  {
    var w := HandleConfirm(v, env, s, text, store);
    if w.appended.Some? && s.slot.value.start < env.now then Outcome(s.(step := Idle), None, SlotPassed) else w
  }

  /** The checked confirm differs from the written one exactly where the written one books a slot that has begun. */
  lemma ConfirmCheckDiffers(v: Variant, env: Env, s: Session, text: string, store: Store)
    requires s.slot.Some? && s.cabin.Some?
    ensures HandleConfirmChecked(v, env, s, text, store) != HandleConfirm(v, env, s, text, store) <==>
              HandleConfirm(v, env, s, text, store).appended.Some? && s.slot.value.start < env.now
  {
  }

  /**
    As written, confirm books a slot that has already begun: nothing between
    the date step and the write compares the slot with the clock, so "yes"
    to a free cabin appends a record whose start is before now.
  */
  lemma ConfirmBooksPastSlot(v: Variant, env: Env, s: Session, store: Store)
    requires s.slot.Some? && s.cabin.Some? && s.slot.value.start < env.now
    requires IsCabinFree(s.cabin.value, s.slot.value, store)
    ensures var r := HandleConfirm(v, env, s, "yes", store);
            r.appended.Some? && r.appended.value.start < env.now
  {
    assert ToLower("yes") == "yes";
  }

  /** The two vocabularies share no word, so no answer both confirms and declines. */
  lemma AnswersDisjoint(answer: string)
    ensures !(answer in YesWords && answer in NoWords)
  {
  }

  /** Confirmation ignores case: "Да", "OK" and "Y" confirm, "Нет" and "NO" decline. */
  lemma AnswersIgnoreCase()
    ensures ToLower("Да") in YesWords && ToLower("OK") in YesWords && ToLower("Y") in YesWords
    ensures ToLower("Нет") in NoWords && ToLower("NO") in NoWords
    ensures ToLower("O\U{212A}") in YesWords
  {
    assert ToLower("O\U{212A}") == "ok";
    assert ToLower("Да") == "да";
    assert ToLower("OK") == "ok";
    assert ToLower("Y") == "y";
    assert ToLower("Нет") == "нет";
    assert ToLower("NO") == "no";
  }

  lemma ConfirmKeepsValid(v: Variant, cfg: Config, env: Env, s: Session, text: string, store: Store)
    requires Valid(v, cfg, s) && s.step == Confirm
    ensures Valid(v, cfg, HandleConfirm(v, env, s, text, store).session)
    ensures Valid(v, cfg, HandleConfirmChecked(v, env, s, text, store).session)
  {
  }

  lemma ChooseDateKeepsValid(v: Variant, cfg: Config, env: Env, s: Session, text: string, store: Store)
    requires Valid(v, cfg, s) && s.step == ChooseDate
    ensures Valid(v, cfg, HandleChooseDate(cfg, env, s, text, store).session)
  {
    var r := HandleChooseDate(cfg, env, s, text, store);
    if r.reply.SlotMenu? {
      OpenSlotsLastOneSlot(cfg, r.reply.day, store);
    }
  }

  lemma OpenSlotsLastOneSlot(cfg: Config, d: Date, store: Store)
    ensures forall x :: x in OpenSlots(BuildSlots(cfg, d), store, cfg.cabinCount) ==> x.end - x.start == cfg.slotMinutes
  {
    var slots := BuildSlots(cfg, d);
    forall x | x in OpenSlots(slots, store, cfg.cabinCount) ensures x.end - x.start == cfg.slotMinutes {
      assert x in slots;
    }
  }

  /**
    A wizard booking lasts exactly one slot length, names an existing cabin
    and that cabin is free for it in the store it is appended to.
  */
  lemma WizardBookingShape(v: Variant, cfg: Config, env: Env, s: Session, text: string, store: Store)
    requires Valid(v, cfg, s) && s.step == Confirm
    ensures var r := HandleConfirm(v, env, s, text, store);
            r.appended.Some? ==>
              var b := r.appended.value;
              && b.end - b.start == cfg.slotMinutes
              && 1 <= b.cabin <= cfg.cabinCount
              && IsCabinFree(b.cabin, Slot(b.start, b.end), store)
  {
  }
}
