/**
  The messages the bot sends, as data. The Russian wording and the date and
  time formatting are not modelled; each reply carries the values its text
  is built from.
*/
module Replies {
  import opened Options
  import opened Utils
  import opened Schedule
  import opened Storage

  /** One line of the slot menu: a slot and how many cabins are free in it. */
  datatype SlotFree = SlotFree(slot: Slot, free: int)

  datatype Reply =
    | Help
    | ResetDone
    | Greeting
    | NotUnderstood
    // wizard
    | DateMenu(dates: seq<Date>)
    | DateNotUnderstood
    | NoSlots
    | AllBooked
    | SlotMenu(day: Date, entries: seq<SlotFree>)
    | PickSlot
    | CabinMenu(selectedDate: Option<Date>, selectedSlot: Slot, cabins: seq<int>)
    | PickCabin(cabins: seq<int>)
    | AskPeople(selectedCabin: int)
    | PeopleInvalid
    | ConfirmPrompt(date: Option<Date>, slot: Option<Slot>, cabin: Option<int>, people: Option<int>, price: Option<int>)
    | AnswerYesNo
    | Declined
    | CabinTaken
    | SlotPassed
    | Booked(booking: Booking)
    // bookings of the caller and cancellation
    | NoBookings
    | BookingList(items: seq<Booking>)
    | CancelFormat
    | CancelNotPositive
    | CancelNoSuchNumber
    | CancelDone(id: string)
    | CancelNotFound(id: string)
    | CancelFailed
}
