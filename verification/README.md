# Cabin booking bot: a verified model of its booking core

This project models the booking domain of a WhatsApp bot that rents out
sauna cabins by the time slot, and proves its properties in Dafny 4.11.
Chat users book through a step-by-step wizard: pick a date, pick a slot,
pick a cabin, optionally give the party size, then confirm. They list their
bookings with `/my` and cancel them by id or by their number in that list.
An admin HTTP API creates, re-labels and deletes bookings and shows slot
availability.

The property everything is organised around is the store invariant
`Availability.NoOverlap`: two records on the same cabin never have
overlapping half-open intervals. Every path that writes the store keeps it:

- the wizard's confirm step;
- both cancel commands;
- the corrected admin POST and DELETE.

`Lifecycle.RunKeepsInvariants` proves that it survives any sequence of chat
messages and admin calls, with the chat router composing the handlers as
written. The admin POST as written does not keep it (see Findings). The
confirm step as written keeps it, but books a slot that has already begun;
`Wizard.HandleConfirmChecked` is the corrected step, stated on its own.

Time is a whole number of minutes and a day is 1440 minutes. A calendar day
is `Utils.Date(day, weekday)`, and its week day is an input. The JSON
booking file is a `seq<Booking>`. The source keeps the session map in a
mutable `Map`; here it is a Dafny `map`. Every handler is a pure function
from the session, the message text and the store to the new session, the
record to append (if any) and a structured reply.

## Files

| file | what it models |
|---|---|
| `options.dfy`, `seqs.dfy` | `Option`; subsequences and order-keeping filters |
| `text.dfy` | the JavaScript string built-ins the code relies on: `trim`, `split(/\s+/)`, `split(':')`, `Number` plus `Number.isInteger`, `toLowerCase`, `replace` |
| `utils.js` → `utils.dfy` | configuration, `getWeekKey`, `parseHHmm`, `makeDayTime`, `toPhone` |
| `sessionManager.js` → `sessions.dfy` | sessions, `getSession`, `resetSession` |
| `storage.js` → `storage.dfy` | `add`, `removeById`, `listByPhone`; `list` returns the store as it is, so it is the store itself |
| `bookingLogic.js` → `schedule.dfy` | `buildWorkingRange`, `buildSlots` |
| `bookingLogic.js` → `availability.dfy` | `overlaps`, `isCabinFree`, `countFreeCabinsForSlot`, and the no-overlap rule |
| `bookingLogic.js` → `loops.dfy` | the same loops written as imperative methods, each proved equal to the functional definition |
| `bookingLogic.js`, `index.js` → `wizard.dfy` | the wizard handlers, in two variants: `Minimal` (index.js, no party size) and `Extended` (bookingLogic.js, party size and price) |
| `commandHandlers.js`, `index.js` → `commands.dfy` | `/my`, cancel by ordinal, cancel by id |
| `admin/api.js` → `admin.dfy` | the decisions of GET `/slots/:date`, POST `/bookings`, PATCH status and DELETE |
| `index.js` → `bot.dfy` | the message router |
| `lifecycle.dfy` | the invariants over any sequence of chat messages and admin calls |

`index.js` repeats the pure helpers of `bookingLogic.js` and `utils.js`
line for line (index.js:34-119). Each is modelled once, and the model table
cites the `bookingLogic.js` or `utils.js` copy.

Two behaviours of the code are easy to miss, and the model keeps both:

- The slot generator checks its cap of 200 only after appending a slot, so
  a day yields up to 201 slots (bookingLogic.js:33-35).
- The store has no `updateStatus`, although the admin PATCH calls it.

## Model

| member | source | states |
|---|---|---|
| Utils.GetWeekKey | utils.js:16-19 | the key returned for day number d sits at index d of the week-key array |
| Utils.WeekKeysBijective | utils.js:16-19 | different week days get different keys, and every key is the key of some day |
| Utils.AddDays | bookingLogic.js:105-107 | adding n days moves the day count by n and the week day by n modulo 7 |
| Utils.AddDaysCompose | bookingLogic.js:126-127 | adding a days and then b days is the same as adding a + b days |
| Utils.SplitFormatHHmm | utils.js:21-22 | splitting a written "H:M" at ':' gives exactly the hour spelling and the minute spelling |
| Utils.ParseFormatHHmm | utils.js:21-24 | parseHHmm reads a written time of day back as the same hour and minute, for hours and minutes up to 2^53 |
| Utils.ParseHHmm | utils.js:21-24 | text without ':' reads as nothing; a result's hour is the number read from the text before the first ':', and its minute the number read from the second part |
| Utils.ParseHHmmParts | utils.js:21-24 | a text `a:b`, or `a:b:rest`, with no colon in a or b is a time of day exactly when a and b both read as integers, with hour a and minute b; anything after a second colon is ignored |
| Utils.MakeDayTime | utils.js:26-29 | for a valid clock time the result falls on the given calendar day, at minute hour * 60 + minute of that day |
| Utils.ToPhone | utils.js:12-14 | a sender id without "whatsapp:" is returned unchanged; otherwise only the first occurrence is cut out |
| Sessions.GetSession | sessionManager.js:15-18 | a known user gets the stored session and the map is unchanged; an unknown user gets a fresh idle session, which is inserted; no other user's entry changes |
| Sessions.ResetSession | sessionManager.js:20-22 | the user's entry becomes idle with no cached slots or cabins; every other entry is kept |
| Sessions.GetSessionIdempotent | sessionManager.js:15-18 | a second lookup returns the same session and changes nothing more |
| Sessions.ResetThenGet | sessionManager.js:20-22 | resetting twice equals resetting once, and a lookup right after a reset sees the fresh session without changing the map |
| Storage.Add | storage.js:29-34 | the record is appended after every earlier record, which keep their order; the record itself is returned |
| Storage.RemoveById | storage.js:36-42 | exactly the records matching both id and phone are dropped, the rest keep their order, and the result is true iff something was dropped (false leaves the store unchanged) |
| Storage.RemoveByIdAppend | storage.js:39 | removal works record by record: on a concatenation it is the concatenation of the two removals |
| Storage.RemoveByIdTwice | storage.js:36-42 | repeating the same removal returns false and changes nothing |
| Storage.ListByPhone | storage.js:44-46 | exactly the records with that phone, in stored order |
| Storage.ListByPhoneAppend | storage.js:44-46 | the phone listing of a concatenation is the concatenation of the listings |
| Storage.RemoveByIdListing | storage.js:36-46 | after a removal the caller's listing no longer holds that id, and every other phone's listing is unchanged |
| Storage.RemoveKeepsOtherPhones | storage.js:39-45 | a removal with one phone leaves the listing of any other phone exactly as it was |
| Schedule.BuildWorkingRange | bookingLogic.js:6-20 | null exactly on a week day without a rule; otherwise the range opens at the rule's open time on that day, and its close time moves to the next day when it is not after the open time, so a valid rule gives open < close <= open + 1 day |
| Schedule.TileFirst | bookingLogic.js:30-36 | the generator emits a slot iff the first slot from the cursor ends by closing time, and that first slot starts at the cursor |
| Schedule.TileLength | bookingLogic.js:30-36 | the generator loop emits at most one slot beyond the 200 cap |
| Schedule.TileContiguous | bookingLogic.js:30-36 | the emitted slots start at the cursor, last the slot length, end no later than close, and each starts where the previous one ended |
| Schedule.TileStops | bookingLogic.js:30-36 | the loop stops only at the cap, or when one more slot would end after close |
| Schedule.BuildSlots | bookingLogic.js:22-39 | a closed day has no slots; otherwise the slots start at the opening time, are back to back and each lasts slotMinutes, none ends after close, at most 201 come out, and only the cap or a too-short remainder ends the list |
| Schedule.ContiguousSlotsAreOrdered | bookingLogic.js:31-34 | with a positive slot length, an earlier slot ends no later than any later slot starts |
| Schedule.BuildSlotsOrdered | bookingLogic.js:22-39 | with a positive slot length the generated slots are non-empty, pairwise disjoint and in increasing order |
| Schedule.ClosedDayHasNoSlots | bookingLogic.js:9-10 | a week day without a rule yields no slots |
| Schedule.ThreeHourDay | bookingLogic.js:22-39 | a 10:00-13:00 day with 60-minute slots yields exactly the slots 10-11, 11-12 and 12-13 |
| Schedule.OvernightRange | bookingLogic.js:15-17 | a 22:00-02:00 rule closes at 02:00 of the next day |
| Availability.Overlaps | bookingLogic.js:41-47 | for non-empty intervals, overlap iff the later start is before the earlier end |
| Availability.FreeMeansBeforeOrAfter | bookingLogic.js:62-68 | a cabin is free for a slot iff each of its bookings ends by the slot's start or starts at or after the slot's end |
| Availability.OverlapsIffSharedMinute | bookingLogic.js:41-47 | two non-empty intervals overlap iff some minute lies in both |
| Availability.OverlapsSymmetric | bookingLogic.js:41-47 | the overlap test does not depend on the order of its two intervals |
| Availability.TouchingDoesNotOverlap | bookingLogic.js:46 | intervals that only share an endpoint do not overlap |
| Availability.BusyCount | bookingLogic.js:49-58 | the busy count over cabins 1..n is at most n, and 0 when there are no bookings |
| Availability.FreeSetSize | bookingLogic.js:49-60 | cabinCount minus the busy count is the number of cabins in 1..cabinCount that are free |
| Availability.CountFreeCabins | bookingLogic.js:49-60 | the free count is the number of cabins c in 1..cabinCount with isCabinFree(c), so it lies in [0, cabinCount], and it is cabinCount when there are no bookings |
| Availability.FreeCabins | bookingLogic.js:185-189 | the free-cabin list holds exactly the free cabins in 1..n, in strictly ascending order, and its length is the free count |
| Availability.BusyCountSameBookings | bookingLogic.js:52-56 | two booking lists with the same members give the same busy count |
| Availability.CountFreeIgnoresOrder | bookingLogic.js:49-60 | the free count does not depend on the order of the bookings |
| Availability.BookingTakesOneCabin | bookingLogic.js:49-68 | a new booking that overlaps the slot, on a cabin that was free, makes that cabin busy and lowers the free count by exactly one |
| Availability.BusyCountOtherCabins | bookingLogic.js:51-58 | a booking on a cabin above n does not change the busy count over 1..n |
| Availability.AppendKeepsNoOverlap | bookingLogic.js:270-291 | appending a record keeps the no-overlap rule iff the rule held and the record's cabin was free for the record's interval |
| Availability.SubsequenceKeepsNoOverlap | storage.js:36-42 | deleting records never breaks the no-overlap rule |
| Loops.BuildSlotsLoop | bookingLogic.js:22-39 | the `while (true)` loop with its two breaks returns exactly the slots of the functional generator |
| Loops.TileAdvance | bookingLogic.js:33-34 | one ordinary turn of the loop appends the next slot and leaves the rest of the output to the cursor at the slot's end |
| Loops.TileLast | bookingLogic.js:35 | the turn that passes the cap emits its slot and ends the output |
| Loops.TileStop | bookingLogic.js:32 | the turn whose slot would end after close adds nothing |
| Loops.HasOverlap | bookingLogic.js:52-56 | the `some` scan is true iff a booking on the cabin overlaps the slot |
| Loops.IsCabinFreeLoop | bookingLogic.js:62-68 | isCabinFree is the negation of that scan |
| Loops.CountFreeLoop | bookingLogic.js:49-60 | the counting loop over 1..cabinCount returns the free count |
| Loops.FreeCabinsLoop | bookingLogic.js:185-189 | the collecting loop returns the ascending free-cabin list |
| Loops.FreeCabinsStep | bookingLogic.js:187-188 | the list for 1..n is the list for 1..n-1, followed by n when n is free |
| JsText.TrimStrips | index.js:414 | whatever white space surrounds a trimmed core, trim returns exactly the core |
| JsText.TrimTrimmed | index.js:414 | text with no white space at either end is left as it is |
| JsText.TrimIdempotent | index.js:414 | trimming twice is trimming once |
| JsText.TokensAreWords | index.js:358 | every word of a whitespace split is non-empty and holds no white space |
| JsText.TokensCons | index.js:358 | a leading word followed by white space or the end of the text is the first word of the split |
| JsText.TokensOfWord | index.js:358 | a single word splits into itself |
| JsText.TokensUnwords | index.js:358 | splitting words that were joined with spaces gives the words back |
| JsText.ParseInteger | bookingLogic.js:125-126 | blank text reads as 0, and a result beyond 2^53 is even, as a double there is |
| JsText.ParseIntegerRoundTrip | bookingLogic.js:125-126 | Number(), restricted to integers, reads an integer's spelling, whatever white space surrounds it, as that integer rounded to the nearest double, and as the integer itself up to 2^53 |
| JsText.ParseIntegerOfSpelling | bookingLogic.js:174-176 | the spelling of n reads back as n rounded to the nearest double, and as n itself up to 2^53 |
| JsText.BeyondSafeRounds | bookingLogic.js:174-176 | the spelling of 2^53 + 1 reads as 2^53 |
| JsText.HugeSpellingIsNotInteger | bookingLogic.js:174-176 | a spelling whose value is at least the overflow bound of doubles reads as Infinity, which is not an integer |
| JsText.Trim | index.js:414 | the result holds no white space at either end and is no longer than the text |
| JsText.TokensBlank | commandHandlers.js:27 | the model's word list of a text is empty iff the text is all white space (on trimmed text, the words of `split(/\s+/)`) |
| JsText.ToLower | bookingLogic.js:256-257 | lower-casing keeps the length and maps each character on its own: ASCII and Cyrillic capitals and the Kelvin sign to their small letters, everything else unchanged |
| JsText.ToLowerIdempotent | bookingLogic.js:256-257 | lower-casing twice is lower-casing once |
| JsText.RemoveFirst | utils.js:13 | `replace` with a string pattern removes only the first occurrence, and a text without the pattern is unchanged |
| JsText.Split | utils.js:22 | split on one character gives at least one part, no part holds the separator, and joining the parts gives back the text |
| JsText.SplitJoin | utils.js:22 | splitting undoes joining when no part holds the separator |
| Wizard.Horizon | bookingLogic.js:103-108 | the date menu lists n days, and line i is today plus i days |
| Wizard.ResolveDate | bookingLogic.js:123-130 | an integer in 1..advanceDays+1 picks that menu day; otherwise only a dddd-dd-dd text is read as a date; anything else is not understood |
| Wizard.OpenSlots | bookingLogic.js:143-146 | the open slots are exactly the generated slots with a free cabin, in generation order |
| Wizard.OpenSlotsCounts | bookingLogic.js:143-146 | each slot with a free cabin is kept as many times as the generated list holds it, and any other slot not at all |
| Wizard.Menu | bookingLogic.js:156-159 | the menu shows the first 30 open slots, each with its free count |
| Wizard.FreshIsValid | sessionManager.js:15-18 | a fresh idle session is a reachable dialogue state |
| Wizard.HandleBookStart | bookingLogic.js:93-117 | the step becomes CHOOSE_DATE with date, slot and cabin cleared (party size and price too in the extended wizard); the menu lists advanceDays+1 days from today; reachability is kept |
| Wizard.MenuNumberPicksListedDay | bookingLogic.js:105-127 | typing the number shown on a date-menu line selects exactly that line's day |
| Wizard.HandleChooseDate | bookingLogic.js:119-170 | an unreadable date, a day without slots, or a day with every slot full leaves the session unchanged; otherwise the step becomes CHOOSE_SLOT, the cache is the list of open slots of that day, and only the displayed list is cut to 30 |
| Wizard.ChooseDateKeepsValid | bookingLogic.js:153-169 | the date step keeps the session reachable: every cached slot lasts one slot length |
| Wizard.HandleChooseSlot | bookingLogic.js:172-201 | a number outside 1..(cache size) re-prompts and changes nothing; otherwise the chosen cached slot is stored, the step becomes CHOOSE_CABIN, and the cabin list is exactly the cabins free now, ascending |
| Wizard.HandleChooseCabin | bookingLogic.js:203-224 | a cabin the menu did not offer re-prompts and changes nothing; otherwise the cabin is stored and the step becomes CONFIRM (minimal, index.js:263-269) or CHOOSE_PEOPLE (extended) |
| Wizard.ChooseCabinKeepsValid | bookingLogic.js:207-213 | the chosen cabin exists, so the session stays reachable |
| Wizard.Price | bookingLogic.js:236 | one guest pays the single rate; a larger party pays the per-person rate once per guest |
| Wizard.RateSumIsProduct | bookingLogic.js:236 | paying a rate once per guest is the rate times the party size |
| Wizard.PriceGrowsPerPerson | bookingLogic.js:236 | from two people up, each extra person adds exactly the per-person rate |
| Wizard.HandleChoosePeople | bookingLogic.js:226-252 | a party size that is not an integer of at least 1 re-prompts and changes nothing; otherwise the step becomes CONFIRM with price priceSingle for one person and n * pricePerPerson otherwise |
| Wizard.NewBooking | bookingLogic.js:280-289 | the record carries the session's cabin and slot bounds, the caller's phone, the new id and the clock; party size and price only in the extended wizard (index.js:311-318 writes neither) |
| Wizard.HandleConfirm | bookingLogic.js:254-305 | an answer outside the lower-cased yes and no vocabularies keeps CONFIRM; every other answer goes to IDLE; a record is appended iff the answer is yes and the cabin is still free; that one record keeps the no-overlap rule |
| Wizard.HandleConfirmChecked | bookingLogic.js:254-305 | the confirm step with the admin API's past-time test: as HandleConfirm, except that a yes for a slot that has already begun ends the dialogue with a "slot passed" reply and appends nothing; every appended record starts at or after now |
| Wizard.ConfirmCheckDiffers | bookingLogic.js:270-291 | the checked confirm differs from the written one exactly when the written one appends a record for a slot that has already begun |
| Wizard.ConfirmBooksPastSlot | bookingLogic.js:254-291 | as written, "yes" for a free cabin in a slot that began before now appends a record that starts before now |
| Wizard.AnswersDisjoint | bookingLogic.js:256-257 | no answer both confirms and declines |
| Wizard.AnswersIgnoreCase | bookingLogic.js:256-257 | "Да", "OK" and "Y" confirm, and so does "OK" written with the Kelvin sign; "Нет" and "NO" decline |
| Wizard.ConfirmKeepsValid | bookingLogic.js:264-292 | the confirm step, written or checked, keeps the session reachable |
| Wizard.WizardBookingShape | bookingLogic.js:270-291 | a wizard booking lasts one slot length, names a cabin in 1..cabinCount, and that cabin was free for it |
| Commands.Insert | commandHandlers.js:6 | inserting adds exactly the one record, as a multiset |
| Commands.InsertSorted | commandHandlers.js:6 | inserting into a start-ordered list keeps it ordered |
| Commands.SortByStart | commandHandlers.js:6 | the sorted list is ordered by start and is a permutation of the input |
| Commands.InsertStable | commandHandlers.js:6 | inserting after the records with an equal start keeps their relative order |
| Commands.SortByStartStable | commandHandlers.js:6 | the sort is stable: records with the same start keep their stored order |
| Commands.MyBookings | commandHandlers.js:6 | the caller's list holds exactly the caller's records, as a permutation, ordered by start |
| Commands.HandleMy | commandHandlers.js:5-24 | "no bookings" iff the caller owns no record; otherwise the non-empty ordered list |
| Commands.CancelArgument | commandHandlers.js:27-35 | an argument is read iff the first word is /cancel or one of отмена, отменить, отказ, возврат and a second word exists; it is that second word |
| Commands.ReadOrdinal | commandHandlers.js:37-46 | no argument, a non-positive or non-integer argument, or an ordinal of at least 1, each exactly when the text says so |
| Commands.CancelByOrdinal | commandHandlers.js:26-58 | the format hint, the "not positive" reply and the "no such number" reply each occur exactly in their case and write nothing; otherwise the caller's nth booking is cancelled; the failure reply never occurs |
| Commands.CancelNth | commandHandlers.js:48-57 | an ordinal past the caller's list writes nothing; otherwise the caller's nth booking in start order is removed by its id and the caller's phone |
| Commands.CancelNthRemovesThatBooking | commandHandlers.js:55-57 | the nth booking is gone afterwards, and exactly the records with its id and the caller's phone were dropped |
| Commands.CancelByOrdinalOnlyRemoves | commandHandlers.js:26-58 | an ordinal cancel only deletes: the remaining records keep their order and other callers' records all stay |
| Commands.CancelCommandWords | commandHandlers.js:27 | "/cancel N" splits into the two words "/cancel" and N |
| Commands.CancelCommandReadsBack | commandHandlers.js:27-32 | the argument read from "/cancel N" is N's spelling |
| Commands.ShownNumberCancelsThatBooking | commandHandlers.js:16-56 | typing "/cancel N" cancels exactly the booking that /my shows on line N |
| Commands.CancelById | index.js:357-368 | without a second word the format hint is sent and nothing is written; otherwise exactly the caller's records with that id are removed and the reply says whether there were any |
| Admin.AdminRecord | admin/api.js:68-82 | the stored record has the parsed cabin and party size, the given bounds and phone, the total price if truthy or else party size times the per-person rate, adults and children defaulting to 0, and status pending |
| Admin.PostAsWritten | admin/api.js:42-89 | 400 iff a required field is falsy; 400 iff the start is before now; 409 iff the raw-value conflict loop finds a match; otherwise exactly one record is appended |
| Admin.Post | admin/api.js:42-89 | the same decisions with the conflict test on the parsed cabin number; every rejection leaves the store alone, and the no-overlap rule is kept |
| Admin.ClashTestsAgreeOnNumbers | admin/api.js:61-65 | for a numeric cabin field the raw-value test and the parsed-number test agree |
| Admin.TextCabinDoubleBooks | admin/api.js:60-65 | cabin "1" sent as text passes the conflict loop and creates a second, overlapping booking of cabin 1 |
| Admin.PostBoundaries | admin/api.js:46-56 | a party size of 0 counts as missing, and a start equal to now is accepted |
| Admin.AdminPriceHasNoSingleRate | admin/api.js:68 | a single guest pays the per-person rate on this path, not the single rate |
| Admin.ReadStatus | admin/api.js:97 | only "pending" and "paid" are accepted |
| Admin.PatchAsWritten | admin/api.js:92-111 | 400 iff the status is invalid; every valid status ends in 500 |
| Admin.Patch | admin/api.js:92-111 | 400 iff the status is invalid; otherwise 200 with the record the store returns, or 404 when it returns none; never 500 |
| Admin.PatchFailsOnlyOnValidStatus | admin/api.js:97-110 | the written handler fails exactly on the requests the corrected one answers with 200 or 404 |
| Admin.Delete | admin/api.js:114-133 | 400 iff no phone is given; 200 iff a record with that id and phone existed, and then the store's removal is applied; 404 and no change otherwise; no-overlap is kept |
| Admin.SlotRows | admin/api.js:21-39 | one row per generated slot, in order, with its free count, and isFull iff that count is 0 |
| Admin.RowsAgreeWithWizard | admin/api.js:26-32 | a slot is offered to chat users exactly when its admin row is not full |
| Bot.GetKeepsAllValid | index.js:29-32 | looking up a session keeps every stored session reachable and touches no other user |
| Bot.StoreKeepsAllValid | index.js:29-32 | storing a reachable session for one user keeps every session reachable and touches no other user |
| Bot.MinimalStep | index.js:433-439 | each wizard step goes to its minimal handler, the confirm step to handleConfirm as written, and the result is again a reachable state; a record is produced only when its cabin is free |
| Bot.Dispatch | index.js:426-439 | an idle caller gets a greeting and stays idle; any other caller's step handler runs and its outcome is committed for that caller; only the caller's session changes, and the store either stays or gains one record whose cabin was free |
| Bot.BookCommand | index.js:146-153 | "/book" restarts the caller's dialogue at CHOOSE_DATE with date, slot and cabin cleared, and writes nothing |
| Bot.Classify | index.js:416-424 | the trimmed text is matched against /help, /reset, /book and /my in that order, and then any text starting with /cancel is a cancel |
| Bot.Perform | index.js:416-439 | /help and /my change nothing, /reset stores a fresh idle session, /cancel goes to the by-id cancel, the rest goes to the step dispatch; every result keeps sessions reachable and keeps no-overlap |
| Bot.Route | index.js:412-439 | an empty message is ignored; otherwise the trimmed text is classified and performed; other users' sessions are untouched, every session stays reachable, and the no-overlap rule is kept |
| Bot.CancelKeepsNoOverlap | index.js:366 | a cancel that only deletes keeps the no-overlap rule |
| Bot.GrowthKeepsNoOverlap | index.js:300-320 | appending one record whose cabin was free keeps the no-overlap rule |
| Bot.CancelWithoutIdChangesNothing | index.js:357-364 | a cancel without an id argument answers with the format hint and changes neither sessions nor store |
| Bot.CancelPrefixIsCancel | index.js:424 | any single word starting with /cancel, such as "/cancelx", reaches the cancel path and changes nothing |
| Bot.BookRestartsFromAnyStep | index.js:414-422 | "/book" with any white space around it restarts the wizard, whatever step the caller was at |
| Bot.IdleTextGreets | index.js:426-430 | plain text from a new caller gets a greeting, creates an idle session and writes nothing |
| Lifecycle.Apply | index.js:412-439 | one chat message, ordinal cancel, corrected admin POST or admin DELETE keeps every session reachable and keeps the no-overlap rule |
| Lifecycle.Run | index.js:399-440 | after any sequence of events every session is reachable, and events that are not chat messages leave every session as it was |
| Lifecycle.RunKeepsInvariants | index.js:300-320 | after any sequence of chat messages, ordinal cancels, corrected admin POSTs and admin DELETEs the store still has no overlapping bookings of a cabin, and every session is reachable |
| Lifecycle.RunAppend | index.js:399-440 | handling two batches of events one after the other is the same as handling them as one sequence |

## Left out

- Transport is not modelled: the Baileys socket, QR pairing, reconnect and message extraction (index.js:370-411), and `send` with its random delay (utils.js:41-44). The message text is a parameter, and replies are a structured datatype rather than the Russian text that `fmtSlot`, `fmtDate` and `helpText` produce.
- `admin/server.js` and the Express request and response plumbing are not modelled. Only the status-code decisions are. A thrown exception is modelled only where it is the finding below.
- File persistence is not modelled: `readAll`, `writeAll`, the missing-file case and the silent `[]` on a parse failure. The store is a sequence in memory.
- dayjs time zones and daylight-saving time are left out: a day is always 1440 minutes. Date texts of the shape dddd-dd-dd are read by a calendar function passed in with the message. It returns a day for every such text, because the date library rolls an impossible day such as 2024-02-30 over to a later one; which day that is, is left to the function. The admin API's ISO strings are given as minutes, and an invalid ISO string is not modelled.
- Admin.SlotRows takes a calendar day. GET `/slots/:date` with a text that is not a date makes the time-zone conversion fail, and the catch block answers 500; that case is not modelled.
- Random ids (`crypto.randomBytes`) are a parameter, and they are not assumed to be unique.
- Concurrency is left out: each handler runs as one atomic step, and interleavings between the admin API and the bot are not modelled.
- `updateStatus` is not part of the store. The corrected PATCH receives its answer as the parameter `found`, and no behaviour is invented for it.
- `generateAvailabilityTable` (bookingLogic.js:70-91) and the GET `/bookings` and `/config` routes only format or return data. They are not modelled.
- The `startISO.localeCompare` sort is modelled as ordering by the start minute. This is the same order for ISO strings written in one format and one zone.
- `config.json` is a `Config` record. Opening times are pre-parsed `HourMinute` values; `parseHHmm` itself is modelled separately. Malformed times (NaN in the source) are not modelled.
- JsText.ParseInteger models `Number` followed by `Number.isInteger` only for an optional sign and decimal digits, and for blank text, which reads as 0. The value is rounded to the nearest double, ties to even, and a value at or beyond the overflow bound is Infinity, which is not an integer. Forms such as "1.0", "1e1" or "0x10", which JavaScript also reads as integers, are read here as non-integers.
- JsText.ToLower maps the ASCII and Cyrillic capitals and the Kelvin sign. Every other character whose lower case differs is left unchanged, and the capital I with dot above, whose lower case is two characters, keeps the text's length here. None of those lower-cases into a letter of a yes or no word, so the confirm step decides the same.
- Utils.ParseFormatHHmm and Wizard.MenuNumberPicksListedDay are stated for numbers up to 2^53. Beyond it the spelling reads back rounded, as JsText.BeyondSafeRounds shows.
- Commands.ShownNumberCancelsThatBooking is stated for list positions up to 2^53, for the same reason.
- Wizard.HandleChoosePeople computes the price `n * pricePerPerson` exactly. JavaScript computes it as a double, which rounds beyond 2^53.
- Admin.AdminRecord stores a textual `totalPrice`, `adults` or `children` as its number; JavaScript stores the string. A request field is a whole number, text spelling one, or absent, and its `parseInt` value is taken to be that number. This holds only for a number below 10^21 in magnitude and a digit text up to 2^53. JavaScript's `parseInt` reads a number of 10^21 or more from its exponent spelling, so `1e21` gives 1, and it rounds a longer digit text to the nearest double, as JsText.BeyondSafeRounds shows for `Number`; the model keeps both values exact. A fractional number such as 1.5, a string such as "1abc" that `parseInt` truncates, and a string of non-digits that `parseInt` reads as NaN are not modelled, so the raw price of 1.5 guests and a NaN cabin are not either.
- Admin.PostAsWritten cannot receive a cabin number such as 1.5. Such a field passes the conflict loop unmatched and is stored as cabin 1, a second way to double-book. A numeric cabin of 10^21 or more is a third: the loop finds no match and `parseInt` stores cabin 1, while the model stores the number itself and keeps no-overlap. A digit text cabin beyond 2^53 is stored rounded by JavaScript and exactly here. The text "1" of the first finding already exhibits the flaw.
- The slot generator's 200 cap means that `slotMinutes` of zero or less yields 201 identical or backward slots. This matches the source, so `Schedule.BuildSlotsOrdered` assumes a positive slot length.

## Findings

| source | as written | input that shows it | evidently intended | confidence | as-written member | corrected member |
|---|---|---|---|---|---|---|
| admin/api.js:60-65 | the conflict loop compares the stored numeric cabin with the raw request field using `===`, while the stored record gets `parseInt(cabinNumber)` | cabin 1 booked 10:00-11:00; POST with `cabinNumber: "1"` for 10:00-11:00 is accepted, and the store holds two overlapping bookings of cabin 1 | test the conflict on the parsed cabin number, so that no two bookings of a cabin overlap | not executed | Admin.TextCabinDoubleBooks | Admin.Post |
| bookingLogic.js:254-291 | the confirm step checks only that the cabin is still free; no wizard step compares the slot with the clock, and the same holds for the copy at index.js:284-321 that the router calls (index.js:436), while the admin POST rejects a start before now (admin/api.js:50-55) | a date menu shows today's slots from opening time; at 12:00 the user picks 10:00-11:00 and answers "yes", and the record is stored | refuse a slot that has already begun, as the admin API does | not executed | Wizard.ConfirmBooksPastSlot | Wizard.HandleConfirmChecked |
| admin/api.js:101 | PATCH calls `storage.updateStatus`, which storage.js does not define, so the call throws and the catch block answers 500 | PATCH `/bookings/x/status` with status "paid" | 200 with the updated record, or 404 when the id is unknown | not executed | Admin.PatchAsWritten | Admin.Patch |
