# The concurrent and arithmetic cores of ibx, verified

ibx is an engine for Interactive Brokers accounts: one engine thread decodes the server's messages, and API clients
read quotes, market data steps and answers from it. This project models the parts where a mistake would not show
up at once: the lock-free structures that carry data from the engine to the clients, the counters that give the
answers of many queues one order, and the arithmetic and the files behind dates, order ids, positions and exchange
maps. `dafny verify dfyconfig.toml` checks all of it.

- `ViewMemory` is a memory of relaxed, acquire and release accesses and fences, after section 31.11
  ([atomics.fences]) of ISO/IEC 14882:2020: a load may return any value that is not older than what its thread knows
  of. `SeqQuote` (the seqlock of a quote) and `RingProtocol` (the ring of market data steps) run on it, one atomic
  access a step, in every interleaving and with every stale value. `StateMarks`, `AnswerOrder`,
  `CatchUpProtocol`, `IdSaver` and `CommandOrder` also allow stale loads of the words they have.
- `MdEvents`, `Bits` and `MdQueues` are the ring as the code has it: bit-packed slots, bit-scan loops, a class with an
  array of slots, each method proved against the sequence of steps written. `RingProtocol` and `CatchUpProtocol` take
  the same calls apart into their accesses.
- `CatchUpProtocol` and `Replica` say what a client's quote becomes when steps are dropped, catch-ups are written and
  the client takes each message in its own order.
- `AnswerOrder`, `StateMarks`, `StateOrder`, `Inboxes`, `Passes` and `CommandOrder` are the order of answers: how
  counts are taken, how marks are kept, how a client gives everything in one order over its passes, and where its own
  errors stand.
- `Calendar` and `TimeText` are dates and times, `OrderIds` and `IdSaver` the file of the highest order ids and the
  thread that keeps it, `Positions` the average cost, `ExchangeMaps` and `ExchangeMapRace` the exchange keys and maps.
  `Text`, `Merge` and `Basics` are shared.

A protocol is a `State`, the `Action`s that may come next (`Enabled`, `Apply`), an invariant that every step keeps
(`StepInv`) and theorems about every run (`Runs`) from an initial state: what is so in all of them, and that from every
reachable state some run serves, gives or reads what waits. Counters are unbounded: the code's would wrap after 2^63
operations.

Where the code does not do all that its comments say:

- A call for an older step of the queue may be given a map that came after the step was written (src/bridge.rs:2272-2274
  promises none): the arrival is checked under one lock and the map read under another. It happens just when the map
  arrives between the two (`ExchangeMapRace`).
- An order id is kept over a restart, and other clients' ids are left alone, just when the account name has no line
  feed and no blank in front (`OrderIds.LoadAfterSave`, `OrderIds.OthersKeptIff`).
- A local error waits for the commands counted as sent. A command is counted after it is in the channel, so with a
  second client in between the target can fall short of the client's own last command, and the error can stand before
  its answer (`CommandOrder.ErrorsFollowAnswersIff`, `CommandOrder.TargetMayFallShort`); with one client it cannot.
- A message takes its place among the answers where `publish` looks at the clock, not where it stores the head, and an
  answer of another thread may not be seen there yet (`AnswerOrder.AnAnswerMaySlipIn`,
  `AnswerOrder.AnAnswerMayBeUnseen`).
- A read of the seqlock that starts after a write ended may still return an older quote, just when the reader's view
  has not reached that write's odd mark (`SeqQuote.ReadsSeeWriteIff`).
- The client takes the book updates of a message last. A field that a book update sets and a later step of the same
  message changes again ends with the older value, until another message sets it (`Replica.BooksLastIff`,
  `CatchUpProtocol.OlderValueKept`); the engine notes any field in a book block (src/engine/hot_loop/farm.rs:874-879).
- A client that starts to listen with the right quote and asks for no catch-up may miss changes, just as long as the
  engine may still load the flag from before (`CatchUpProtocol.ConvergesFromRightStartIff`).
- Times up to the end of the year 9999 read back as printed up to the last instant the time library holds; jiff
  documents 9999-12-30 22:00:00 UTC (`TimeText.LAST_INSTANT`), so the texts of the 26 hours after it do not.
- A client's own answer takes its count before it goes to the list (src/api/client/mod.rs:257-261), a pass takes the
  list before it reads the clock, and gives it in the order of the list. With a second thread of the client an own
  answer can so be given one pass late, after answers with higher counts (`Passes.OwnAnswerMayComeLate`), or, with none
  late, the own answers of one pass can be given out of order (`Passes.OwnAnswersMayBeOutOfOrder`). A pass keeps the
  order just when neither is so (`Passes.PassKeepsOrderIff`); with one thread it always does.
- A pass is to leave the queues alone when the clock has not moved (src/client_core/inbox.rs:129-132). It never does: it
  leaves an empty inbox behind whose clock is 0, and putting its own back takes the lower of the two clocks
  (src/client_core/inbox.rs:51-59, src/api/client/dispatch.rs:75, 237). Nothing is lost by it, and `Passes` allows both.

## Model

| member | source | states |
|---|---|---|
| SeqQuote.SnapshotsAreWholeWrites | src/bridge.rs:692-768 | in every run, whatever stale words relaxed loads return, each snapshot a reader accepts is all 15 words of the one write its version names, and a reader never goes back to an older write |
| SeqQuote.StepInv | src/bridge.rs:746-768 | every access of the writer or of a reader keeps the invariant: a word carries the odd version of its write, an even version every word of its write |
| SeqQuote.Accepted | src/bridge.rs:764-766 | the version check accepts only if every word was loaded from the one write that the first version names |
| SeqQuote.ReadsSeeWriteIff | src/bridge.rs:746-768 | for every reachable state with a completed write k and a reader about to start: all it returns in every run from there is write k or newer, if and only if its view of the version has reached the odd mark of write k |
| SeqQuote.UnseenWriteMayBeMissed | src/bridge.rs:756-768 | in every reachable state where it has not, there is a run whose next snapshot is of an older write |
| SeqQuote.HeardWritesAreSeen | src/bridge.rs:755-768 | a reader that heard from the writer since write k ended has that view |
| SeqQuote.ReadCanFinish | src/bridge.rs:756-768 | from every reachable state with no write in progress, wherever a reader stands (after stale words or before the fence included), a run of that reader alone ends with the newest write as its last snapshot, its first or second from there |
| SeqQuote.UnheardWriteMayBeMissed | src/bridge.rs:746-768 | wherever a run has come to, one more completed write that the reader does not hear of may be missed |
| Bits.LowestRound | src/md_events.rs:421-423 | a round of the lowest-bit loop takes the next set bit, and the number of rounds before it is the bit's rank |
| MdEvents.HeaderRoundTrip | src/md_events.rs:97-105 | unpacking a packed header gives every part back, cut to the bits it has |
| MdEvents.HeaderPlaces | src/md_events.rs:97-105 | two headers as numbers: which part stands in which bits |
| MdEvents.SlotRoundTrip | src/md_events.rs:241-253 | decoding a slot that holds a step gives the step as kept, whatever else the slot held before |
| MdEvents.ReadsBackAsWritten | src/md_events.rs:97-105 | a step comes back exactly as offered if and only if its instrument is below 65536, its status below 4, its fields among the 15, and its unset fields 0 |
| MdEvents.WriteSlot | src/md_events.rs:412-430 | the bit-scan loop leaves the header and the set fields, packed by rank, over any earlier content |
| MdEvents.ReadSlot | src/md_events.rs:540-552 | the bit-scan loop reads the step the words stand for, unset fields 0 |
| MdEvents.WordsLength | src/md_events.rs:418-429 | a header tells how many words follow it |
| MdEvents.WordsDecode | src/md_events.rs:540-552 | the words of a step decide what is read, whatever follows them in the slot |
| MdQueues.MdQueue.constructor | src/md_events.rs:324-341 | an empty ring, nothing listened to and nothing waiting |
| MdQueues.MdQueue.Push | src/md_events.rs:397-431 | a step is added to the sequence if and only if fewer than the capacity lie between the reader's true position and the next one, though the writer looks at a stale one; it is marked first just when it opens a message |
| MdQueues.MdQueue.Publish | src/md_events.rs:441-462 | hands over the steps written; takes a count and a mark just when the clock moved; a disciplined reader's marks are never dropped |
| MdQueues.MdQueue.Read | src/md_events.rs:540-552 | gives the step written at that position, marked first exactly when it opens a published message |
| MdQueues.MdQueue.StepAt | src/md_events.rs:556-559 | the kind and the mark of the step from its header alone |
| MdQueues.MdQueue.Release | src/md_events.rs:563-565 | moves the reader's position and nothing else; a reader that took the marks before stays disciplined |
| MdQueues.MdQueue.TakeMarks | src/md_events.rs:524-529 | moves exactly the marks before a position, in their order |
| MdQueues.MdQueue.Listen | src/md_events.rs:502-509 | for every instrument: listened to as asked if it is equal to the one named up to the number of instruments, and as before if not |
| MdQueues.MdQueue.WantCatchUp | src/md_events.rs:493-497 | for every instrument: waits if it is equal to the one named up to the number of instruments or waited before, and the scan is announced |
| MdQueues.MdQueue.Offer | src/md_events.rs:365-393 | writes the step if and only if the instrument is listened to, does not wait and the ring has room; a step that does not fit makes the instrument wait, and nothing else does |
| MdQueues.MdQueue.CatchUpOne | src/md_events.rs:479-487 | with the client releasing steps before and after the look at its position, a catch-up at or below half full always fits; above, the instrument waits again |
| MdQueues.MdQueue.ScanWord | src/md_events.rs:476-489 | one word of the scan while the client reads: each wanted instrument has its turn in order, served if the ring is at most half full then, else waiting again |
| MdQueues.MdQueue.WriteCatchUps | src/md_events.rs:472-491 | the scan while the client reads: exactly the served are written, in order and as one published message; exactly the others wait, and the flag is set just when there are any |
| MdQueues.WantedExactly | src/md_events.rs:476-484 | the instruments a scan serves are exactly those that wait and are listened to, each once and in order |
| MdQueues.ServedOrNot | src/md_events.rs:476-489 | whatever positions of the reader a scan finds, each wanted instrument is served or waits again, and none does both |
| MdQueues.ServedAtRest | src/md_events.rs:480-486 | with the client at rest, the served are the first ones, as many as fit up to just over half |
| MdQueues.InSlotsPush | src/md_events.rs:411-430 | writing at the next position overwrites no step that may still be read |
| MdQueues.RisingCount | src/md_events.rs:451-455 | marks at rising positions are no more than the positions, so the capacity check drops none |
| RingProtocol.RingIsAQueue | src/md_events.rs:403-462 | in every run of the two threads' accesses, with stale loads: seen tail, tail, seen head, head, next are in order and within one capacity, what was read at a position is what was written there, and the slot being written is in no use |
| RingProtocol.NoOtherWord | src/md_events.rs:540-552 | the only word a relaxed load for a position can return is the one stored for it |
| RingProtocol.StepsReadBack | src/md_events.rs:540-552 | the step read at a position is the step written there |
| RingProtocol.CatchUpFits | src/md_events.rs:480-486 | with stale loads: when the scan's load of the tail leaves at most half the ring, the push that follows never finds it full, whatever tail it loads |
| RingProtocol.AStepGoesThrough | src/md_events.rs:397-462 | from every reachable state with the engine between two pushes and the reader between two reads, however full the ring is, a run in which the engine writes any whole step at its next position, publishes it, and the reader reads exactly its words there |
| RingProtocol.ACatchUpGoesThrough | src/md_events.rs:479-487 | with the tail at most half the ring behind, the look at the tail finds it so, and the catch-up is written although the reader does nothing |
| RingProtocol.ComesToRest | src/md_events.rs:397-431 | from every reachable state, a run in which a push and a read that have begun end: the step begun is written whole, the step being read is read as it was written |
| Replica.FoldAppend | src/client_core/md_stream.rs:907-913 | reading steps in two parts gives what reading them at once gives |
| Replica.BooksLastIff | src/client_core/md_stream.rs:926-957 | taking the book updates of each message last gives a field the value that the order of writing gives it, if and only if in the last message that sets it the last book update of the field, if any, has the last word |
| CatchUpProtocol.NoRequestIsLost | src/md_events.rs:472-514 | in every interleaving, a set bit is announced by the flag, or its setter is about to, or the running scan will come to it |
| CatchUpProtocol.ConvergesAfterRequest | src/client_core/md_stream.rs:753-756 | a client listens and asks for a catch-up: in every run in which it goes on listening, whatever is dropped, whenever the instrument waits for nothing the steps written give the engine's quote; and a client that has read them, books last, has the engine's value of a field if and only if the last message that sets it agrees |
| CatchUpProtocol.RequestIsNotDropped | src/md_events.rs:476-484 | in every such run the request waits, or the scan has it and any `listened` flag it may load is set, or a catch-up has been written since |
| CatchUpProtocol.RequestIsServed | src/md_events.rs:472-491 | from every reachable state in which the request of a listening client waits, wherever the engine stands, a run in which the client goes on listening ends with the engine at rest and nothing of the instrument waiting: a step of it with all fields has been written since, all that is written is handed over and read, the steps give the engine's quote, and the client has its value of a field if and only if the last message that sets it agrees |
| CatchUpProtocol.RequestRuns | src/md_events.rs:493-497 | a request of a client makes its instrument wait and announces the scan; if the client listened, the request knows of it |
| CatchUpProtocol.OfferRuns | src/md_events.rs:365-393 | an offer to nobody, to one who waits, or to a full ring writes nothing and leaves its fields due no more; the full ring makes the instrument wait and announces the scan |
| CatchUpProtocol.StoppedIsSilent | src/md_events.rs:365-393 | from every reachable state at rest: once a client stopped listening and the engine heard of it, no run writes a step of the instrument until someone listens again |
| CatchUpProtocol.OlderValueKept | src/client_core/md_stream.rs:926-957 | a run in which the client has read all, nothing waits or is due, and a field has the older of two values, for every instrument, field and value |
| CatchUpProtocol.ConvergesFromRightStartIff | src/md_events.rs:346-393 | from a right start without a request, the same holds in every run if and only if no older `listened` flag is left for the engine to load |
| AnswerOrder.MessagesAndAnswersShareOneOrder | src/md_events.rs:441-462 | an answer's count is below a message's if and only if the answer was counted before the message took its place and `publish` saw it; positions and counts of marks both go up |
| AnswerOrder.LaterDrainsAreAboveTheBound | src/bridge.rs:123-143 | after reading the clock as b and draining a queue, no later drain of it gives a count below b |
| AnswerOrder.CountsGiveTheOrderOfWriting | src/bridge.rs:108-139 | counts go up in the order of writing over all queues, and what was drained with what is left is all that was written, once and in order |
| AnswerOrder.AnAnswerGoesThrough | src/bridge.rs:108-139 | from every reachable state with a queue free, a run in which a push writes an answer with the clock's count, and a client that then reads the clock drains the queue with a bound above it and has everything ever written to the queue |
| AnswerOrder.AMessageGoesThrough | src/md_events.rs:441-462 | from every reachable state with `publish` quiet, a run that hands over all steps as one message, with a count of its own if and only if the clock has moved, and every position of it gets that count |
| AnswerOrder.PushEnds | src/bridge.rs:117-121 | a push that has begun ends with its one answer last in the queue and the lock free |
| AnswerOrder.PublishEnds | src/md_events.rs:441-462 | a publication that has begun ends with the head at the next position |
| AnswerOrder.AnAnswerMaySlipIn | src/md_events.rs:447-459 | a run in which an answer counted before the head is stored stands above the message |
| AnswerOrder.AnAnswerMayBeUnseen | src/md_events.rs:447-448 | a run in which `publish` loads the clock without another thread's answer, which then stands above the message |
| StateMarks.NoChangeIsLost | src/bridge.rs:190-226 | in every interleaving, with relaxed loads and exchanges, a noted change is marked, or was read since, or is about to be; a mark is cleared only below the bound |
| StateMarks.AChangeGoesThrough | src/bridge.rs:203-226 | from every reachable state with a thread at rest and the client away, a run in which the thread changes a piece and notes it, and the client with any bound above the mark clears it and has read that change |
| StateMarks.ClientReads | src/bridge.rs:220-226 | from such a state a client left alone clears the mark if and only if its count is below the bound, and reads every piece as it is |
| StateMarks.ReadingEnds | src/bridge.rs:220-226 | a reading of the client that has begun ends: the mark it loaded is cleared if it still stands and kept if not, and every piece not read yet is read |
| StateMarks.NoteEnds | src/bridge.rs:203-209 | a note that has begun ends with a mark: the one that stands, or else its own count plus one |
| Inboxes.FirstTwo | src/client_core/inbox.rs:61-79 | the queue with the smallest first count and the smallest first count of the others, in one pass |
| Inboxes.Next | src/client_core/inbox.rs:154-181 | the run starts with the smallest count that waits and stops before any other source's first and before the bound; none just when nothing of a queue or the client is below it |
| Inboxes.TakeRun | src/client_core/inbox.rs:202-205 | takes the answers in front with counts below the bound, which are all of those if the queue is in order |
| Inboxes.Dispatch | src/api/client/dispatch.rs:71-94 | a pass gives the answers of all queues, the client and the state one at a time, each time the lowest in front, until none in front is below the bound, with nothing lost or given twice; when each source is in the order of its counts, these are all answers below the bound, in order |
| Merge.OneSourceIff | src/client_core/inbox.rs:158-181 | of such a giving, with all sources in order but one that is wholly below the bound: what is given is in order if and only if that one is |
| Merge.GaveRun | src/api/client/dispatch.rs:87-94 | giving a run of one source up to the lowest front of the others is giving one at a time |
| Merge.GivingEnds | src/api/client/dispatch.rs:87-94 | whatever the sources hold and whatever was given, giving the lowest front goes on until none is below the bound |
| Passes.PassesGiveInOrder | src/api/client/dispatch.rs:71-94 | over any run of passes of a client with one thread, each draining or not when the clock has not moved, and each giving by the loop above: the queued and own answers given are in the order of their counts across passes, and are exactly those counted below the last bound |
| Passes.PassKeepsOrderIff | src/api/client/dispatch.rs:71-94 | with any threads, a pass keeps that order if and only if the own answers it took are in the order of their counts and none counted below its bound is on its way or came to the list after |
| Passes.EveryAnswerCanBeGiven | src/api/client/dispatch.rs:71-94 | from every reachable state of a client with one thread and no push under way, wherever its pass stands, a run gives exactly all that was written |
| Passes.OwnAnswerMayComeLate | src/api/client/mod.rs:257-261 | a run of two threads in which an own answer is given a pass late, after a higher count |
| Passes.OwnAnswersMayBeOutOfOrder | src/api/client/mod.rs:257-261 | a run of two threads in which none is late and one pass gives two own answers out of order |
| StateOrder.CountFromIsCountOf | src/client_core.rs:3714-3723 | the count the client gives a position is the one of the message published there |
| StateOrder.MdOrder.StartPass | src/client_core.rs:3698-3709 | the marks of all steps to read are held when there are any |
| StateOrder.MdOrder.PassMarks | src/client_core.rs:3720-3722 | passing marks changes no count from the reader's position on |
| StateOrder.MdOrder.StateFirst | src/client_core.rs:3714-3728 | the lowest count of the steps to read and the noted change, none just when there is neither |
| StateOrder.MdOrder.StateRead | src/client_core.rs:3732-3747 | the position before which exactly the steps counted below the bound stand |
| CommandOrder.ErrorsFollowAnswersIff | src/bridge.rs:471-501 | for every reachable state with any number of clients, a client that waits and any end of its wait: in every run its error stands after the answers of its own earlier commands, if and only if those are done already, or the wait ends by the count and its target reaches the last of them |
| CommandOrder.OneClientsErrorsFollow | src/bridge.rs:248-253 | with one client, such an error stands after the answers of every command sent before it |
| CommandOrder.NotCoveredBreaks | src/bridge.rs:484-500 | in every other state with a waiting client there is a run with its error directly before the answer of its last command |
| CommandOrder.TargetMayFallShort | src/engine/park.rs:178-219 | two clients reach such a state: a command is counted after it is in the channel |
| Calendar.DateIsValid | src/config.rs:361-374 | every day count gives a date that exists |
| Calendar.DaysRoundTrip | src/config.rs:361-374 | the days-from-civil function undoes it |
| Calendar.CivilRoundTrip | src/config.rs:361-374 | it undoes the days-from-civil function: no date is left out |
| Calendar.TomorrowIsNext | src/config.rs:361-374 | the calendar's next day has the next day count |
| Calendar.IsTheCalendar | src/config.rs:361-374 | 0 is 1970-01-01 and each next count the calendar's next day |
| TimeText.CivilIsValid | src/config.rs:160-187 | the date and time of a second exist and stand for that second |
| TimeText.TextRoundTrip | src/config.rs:243-303 | any date and time up to 9999 printed in either form parses as its own instant, or out of range past the last one |
| TimeText.DateReadsBack | src/config.rs:260-264 | every date up to 9999 printed as eight digits parses as that date with no time |
| TimeText.TimedTextReads | src/config.rs:260-303 | a date, a dash or a blank and three two-digit numbers, with a zone or none: no such time if one is out of range, the time in the zone as written, or the UTC instant |
| TimeText.NoDateIsRefused | src/config.rs:256-258 | eight digits that are no date are refused, whatever follows |
| TimeText.NoDigitsAreRefused | src/config.rs:247-249 | a text that does not start with eight digits is refused as no date |
| TimeText.NoTimeIsRefused | src/config.rs:271-285 | fewer or more than three parts are no time; three parts hold a bad number just when one does not parse, and no such time just when one is out of range |
| TimeText.BlanksAround | src/config.rs:243-246 | blanks around a text change nothing, and a text of blanks gives nothing |
| TimeText.FirstTexts | src/config.rs:160-187 | the two printers' texts of second 0 |
| TimeText.PrintedTimesReadBack | src/config.rs:160-187 | both printers' texts of every second to the end of 9999 read back as that second if and only if the library holds it |
| TimeText.LastHoursDoNotReadBack | src/config.rs:299-303 | with the last instant that jiff documents, the first text that does not read back is 99991230-22:00:01 |
| TimeText.TextOrderIsTimeOrder | src/config.rs:160-187 | the alphabetical order of the texts is the order of the times |
| TimeText.WriteU2 | src/config.rs:154-157 | writes two characters and leaves the rest of the buffer |
| TimeText.ChronoFreeTimestamp | src/config.rs:125-150 | the 17 bytes are the printer's text if and only if the year is at most 9999 |
| TimeText.StampIsText | src/config.rs:136-149 | the pairs of digits are the printed text just for years of four digits |
| OrderIds.DecimalRoundTrip | src/order_ids.rs:46-49 | a printed number parses as itself |
| Text.ParseIntIff | src/order_ids.rs:48 | what parses as an integer: digits with a sign or none, for the value they write, in range |
| OrderIds.KeysDiffer | src/order_ids.rs:38-40 | two clients share a key if and only if they are one, whatever the account names hold |
| OrderIds.LineBack | src/order_ids.rs:45-50 | a printed line is read as its entry, the key without blanks in front |
| OrderIds.PrintBack | src/order_ids.rs:42-51 | a printed file of entries without line feeds is read as those entries |
| OrderIds.LineIsEntryIff | src/order_ids.rs:45-50 | a line without the blanks around gives an entry if and only if it has an `=` and a number in range after the last one |
| OrderIds.DamagedLineIsLeftOut | src/order_ids.rs:42-51 | a line that holds no entry anywhere after the first changes nothing that is read of the others |
| OrderIds.ThreeSaves | src/order_ids.rs:143-153 | the file after the saves of three clients, character by character, what is loaded of it, and that a lower value changes nothing |
| OrderIds.EntriesAreGood | src/order_ids.rs:42-51 | whatever the file holds, what is read from it can be written and read again |
| OrderIds.IdFile.Save | src/order_ids.rs:62-83 | the new file and the value given back, or an unchanged file when the writing fails |
| OrderIds.LoadAfterSave | src/order_ids.rs:54-83 | load after save is the higher of the two values if and only if a line can hold the account (and the value is not negative for a new client), else only for values at or below 0 |
| OrderIds.OthersKept | src/order_ids.rs:60-83 | no other client's entry changes, for an account that a line can hold |
| OrderIds.OthersKeptIff | src/order_ids.rs:60-83 | for every client and value: a save changes no other client's entry in any file if and only if a line can hold the account |
| OrderIds.BlankAccountIsSavedAsAnother | src/order_ids.rs:45-77 | what a save does to every client when the account has a blank in front |
| OrderIds.BadAccountMakesAnotherEntry | src/order_ids.rs:38-77 | any account that a line cannot hold makes another account's entry when the file is absent |
| IdSaver.StepInv | src/order_ids.rs:93-130 | every access of a session's threads, and every save of another client or process, keeps what is owed to earlier sessions on the file |
| IdSaver.SessionsStartAboveUsedIds | src/order_ids.rs:93-130 | over any run of sessions, other clients' saves and other processes' of the same client, every value of `highest` is at or above every id placed before the stop requests of the sessions whose last save worked |
| IdSaver.NextSessionsAreAbove | src/order_ids.rs:93-130 | a session that ends with no failed save from some point on: every value of `highest` in every later session is at or above every id placed before its stop request, and the file is too |
| IdSaver.HighestIsMaximum | src/order_ids.rs:93-96 | every value of `highest` in a session is the highest of what the client starts with, the saved value at the start, and the ids placed or found on the file since |
| IdSaver.WorkingSaveLifts | src/order_ids.rs:104-111 | a save that works leaves the higher of its value and what another process of the client saved, and then `highest` is at or above both |
| IdSaver.SessionCanEnd | src/order_ids.rs:98-130 | every session not yet told to stop can be ended by a run that leaves the file at or above every id raised in it |
| IdSaver.OneIdSession | src/order_ids.rs:103-118 | a run in which the next session starts at the id placed if and only if the last save worked and a line can hold the account |
| Positions.PortfolioState.ApplyFill | src/bridge.rs:2994-3018 | the new position of the contract, its cost 0 when the fill closes it and the price when it opens or turns it over; the generation, and no other contract changed; nothing for an empty fill |
| Positions.PortfolioState.ApplyCommission | src/bridge.rs:3026-3032 | the cost moves for an open position only, and no other contract changes |
| Positions.FillBasis | src/bridge.rs:3001-3015 | any fill (open, add, reduce, close, turn over) balances cost, cash and profit of the closed part |
| Positions.CommissionBasis | src/bridge.rs:3026-3032 | a commission raises what an open position cost by exactly its amount |
| Positions.CostIsConserved | src/bridge.rs:2994-3032 | over any run from flat, the cost of the position plus the cash is the profit taken; once closed, the profit is the cash |
| Positions.ClosedCostsNothing | src/bridge.rs:3003-3004 | over any run of fills and commissions, a position of size 0 has average cost 0 |
| Positions.CostIsWithinPrices | src/bridge.rs:3002-3015 | without commissions the average cost is between the lowest and the highest price of the fills that opened the position or added to it |
| ExchangeMaps.KeptIsTail | src/bridge.rs:2405-2417 | the kept list is the last four key changes |
| ExchangeMaps.LastAtIs | src/bridge.rs:2275-2280 | the key of a step is that of the sighting at or before it with every later one after it, and there is none if and only if all are after it |
| ExchangeMaps.KeptAnswersAsAll | src/bridge.rs:2275-2280 | for a step from the oldest kept sighting on, which are the steps with fewer than four key changes after them, the four kept give the key of the last of all sightings at or before the step; an older step gets the oldest kept key |
| ExchangeMaps.ReferenceState.ObserveAt | src/bridge.rs:2405-2424 | a sighting is added, and the key is new if and only if it was not known |
| ExchangeMaps.ReferenceState.SetMapAt | src/bridge.rs:2445-2454 | an arrival is added: the first position and the last map of each key are kept |
| ExchangeMaps.FirstArrivalIs | src/bridge.rs:2445-2454 | the arrival kept of a key is that of its first map, and there is none if and only if none came |
| ExchangeMaps.LatestMapIs | src/bridge.rs:2445-2454 | the map kept of a key is its last, and there is none if and only if none came |
| ExchangeMaps.ReferenceState.ForgetWaiting | src/bridge.rs:2461-2464 | a key that waits is forgotten, a map that arrived never |
| ExchangeMaps.ReferenceState.MapAt | src/bridge.rs:2275-2288 | by positions: the key is that of the last sighting at or before the step, or of the oldest kept one; its last map is given if its first came at or before the step, and none if not |
| ExchangeMapRace.GivenInTimeIffArrivedBeforeCheck | src/bridge.rs:2275-2288 | in every run, a map is given to a step at or after its first arrival if and only if it had arrived at the call's check |
| ExchangeMapRace.AnArrivedMapIsGiven | src/bridge.rs:2275-2288 | from every reachable state with the engine between two maps and a client between two calls, a run in which a map comes, a step is written, and the call for that step gets the map |
| ExchangeMapRace.AMapMayComeEarly | src/bridge.rs:2272-2288 | a run in which a map is given to a step written before it came |

## Left out

- CatchUpProtocol.ConvergesAfterRequest: whether a push fits is left open rather than tied to the ring; that a catch-up at or below half full fits is `RingProtocol.CatchUpFits`.
- Passes.PassesGiveInOrder: what is read from the state is not part of the passes; `StateOrder` and `Inboxes` place it within one.
- CatchUpProtocol.ConvergesAfterCatchUp: gives a sufficient condition for a catch-up that no request asked for; a client that asks needs none (`CatchUpProtocol.ConvergesAfterRequest`).
- CatchUpProtocol.NoRequestIsLost: the flag and the waiting bits are swapped and set by read-modify-writes, so they are taken in one order.
- AnswerOrder.MessagesAndAnswersShareOneOrder: marks are never dropped here; that a reader that takes them loses none is the contract of `MdQueues.MdQueue.Publish`.
- MdQueues.MdQueue.Offer: stands for `offer_quote` too, which builds the same step from the engine's quote; the client does not move within one push.
- MdQueues.MdQueue.WriteCatchUps: the words of `listened` and `resync` are sets of bit numbers, and no request starts or stops within the scan; `CatchUpProtocol` interleaves those.
- Inboxes.Dispatch: what is read from the state is a source of counts, in runs as `StateOrder` finds them; which account values a reading then gives is not modelled.
- CommandOrder.OneClientsErrorsFollow: the engine writes the answers of a command while it handles it; answers that the server sends later are not ordered by this clock.
- TimeText.PrintedTimesReadBack: times in a named zone are parsed and not resolved, since zones come from the jiff library.
- IdSaver.SessionsStartAboveUsedIds: a save is one step, so two processes that rewrite the file at once are not covered.
- Positions.CostIsConserved: costs are exact reals; the rounding of doubles and the width of sizes are not modelled.
- ViewMemory has no load buffering: a load returns a value that was stored before, as on promise-free models.
- Wraparound of 64-bit counters and positions.
- The paced turns of `CommandClock` (`defer`, `take_turn`), thread parking, wake-ups and time limits as durations.
- The event channel, which drops events when it is full.
- Getters, setters and plain drains of `ReferenceState`, `OrderState` and `MarketDataState`, which would only add easy members.
- Connections, decoders, order handling, the Python bindings, scenario and benchmark code.
