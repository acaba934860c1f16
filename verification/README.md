# Verified model of the SMS queue and of its wire codec

This project models the two hard parts of the repository in Dafny 4.11 and proves what they promise.

* **The queue** (`smqueue/smqueue.h`, `smqueue/smqueue.cpp`): one list of pending messages, each with a
  state and the time of its next action. `process_timeout` looks only at the head; `set_state` moves an
  entry to its place; arrivals, answers and bounces go to the front; SIP responses find their request by tag.
* **The codec** (`SMS/`, `GSM/`, `smqueue/smsc.cpp`): the 7-bit alphabet and its packing, the user data
  header, swapped-nibble digits, length-value elements, RP-DATA inside CP-DATA, SMS-DELIVER, and the
  repacking of a message for delivery. Beside them the queue file and the registration short code.

How the files are layered:

| files | content |
|---|---|
| `Messages`, `Characters`, `Tags`, `Lookups` | states, timeout table, messages; tags and their search; lookup decisions |
| `QueueOps`, `QueueSteps` | the list operations and the steps of the queue as functions, with a history |
| `QueueInvariants`, `QueueRuns` | the invariant every step keeps, and safety over whole runs |
| `Conservation`, `Drain`, `Registrations` | nothing is lost; the queue drains; answers to registrations |
| `TimerRows`, `Outcomes`, `LookupLaws`, `AnswerLaws`, `TimerLaws`, `Paths` | what each timer call, look-up, answer and short code makes of a message, with its numbers; whole ways of a text |
| `SMq` | the queue class with the methods of the program, each proved equal to its step function |
| `Bits`, `Octets` | bit fields and octets |
| `BcdDigits`, `Layers`, `RelayLayer` | digits, length-value elements, RP-DATA, CP-DATA, the SMS address |
| `GsmAlphabet`, `UserData`, `ValidityPeriod`, `Deliver`, `Handset` | the transfer layer, and what a handset reads out of a frame |
| `WireLaws`, `Malformed`, `Senders` | the octets of the layers as numbers, what the parsers refuse, who a text is shown to come from |
| `Packing`, `QueueFile`, `Streams`, `RegisterCode` | repacking, the queue file, number registration |

The queue state carries a history that the program does not have (who was born from whom, how often each
message was handed to the network, the horizon below which times may be out of order). Methods of `SMq`
update it as ghost fields. Run theorems speak of every sequence of arrivals, restored entries and timer
calls, with clocks, lookups in the subscriber registry, short-code answers and packing results as inputs.

Where code and comments disagree, the code is modelled:

* The list is not "sorted by time of next action" (`smqueue/smqueue.h:843`): front inserts and in-place
  changes put times out of order. What holds is an order above a horizon, and `RateLimitHidesInRun` is a run
  after which a due message stays unseen.
* An acknowledged REGISTER puts its SMS back to the initial state with the "no timeout" delay of 50 minutes
  (`AfterAnswer`).
* The length octet of a TP address counts a leading plus, so a sender with a plus and an even number of digits
  does not read back (`TlAddressRoundTrip`), and a handset does not get the text behind it (`TextArrives`).
* The validity period is written as format 1 and read as format 2 (`FormatsDisagree`).
* Queue times are milliseconds since the epoch, but the file is read into 32-bit unsigned numbers; a present
  day cannot be read back (`LateTimeHangs`).

## Model

| member | source | states |
|---|---|---|
| `Tags.QtagInjective` | smqueue/smqueue.cpp:787-899 | numeric CSeq and from-tag are recovered from the tag, so two messages share a tag only when they agree on both |
| `Tags.FindQueuedMsgByTag` | smqueue/smqueue.cpp:442-465 | the loop comparing hash and tag finds the same entry as a search by tag alone |
| `QueueInvariants.SetStateKeeps` | smqueue/smqueue.h:1164-1212 | the ordered re-insert keeps the whole invariant, with the horizon unchanged |
| `QueueInvariants.TouchKeeps` | smqueue/smqueue.h:713-734 | a time changed in place keeps the invariant, with the horizon raised to the old and the new time |
| `QueueInvariants.EnrollKeeps` | smqueue/smqueue.h:1111-1143 | a front insert keeps the invariant, with the horizon raised to the new time |
| `QueueInvariants.DropKeeps` | smqueue/smqueue.cpp:1069-1091 | a removal keeps the invariant |
| `QueueInvariants.HandleResponseKeeps` | smqueue/smqueue.cpp:286-436 | every kind of answer keeps the invariant |
| `QueueInvariants.ProcessKeeps` | smqueue/smqueue.cpp:1024-1226 | every branch of the state switch keeps the invariant |
| `QueueInvariants.StepKeeps` | smqueue/smqueue.cpp:972-1232 | every step keeps order above the horizon, distinct identities, tags, links, the attempt count and the clock bounds |
| `QueueRuns.RunKeeps` | smqueue/smqueue.cpp:972-1232 | the invariant holds after every run from the empty queue |
| `QueueRuns.HeadDecides` | smqueue/smqueue.cpp:998-1002 | at or past the horizon the head is due if and only if some entry is |
| `QueueRuns.HiddenForABoundedTime` | smqueue/smqueue.cpp:81-127 | the horizon is within one longest delay of the last front insert or in-place change |
| `QueueRuns.NothingHiddenForLong` | smqueue/smqueue.cpp:998-1002 | over any run without restored entries, the head decides once that delay has passed |
| `QueueRuns.NothingHiddenInOrder` | smqueue/smqueue.cpp:998-1002 | while no time was changed in place, the head always decides |
| `QueueRuns.RateLimitHides` | smqueue/smqueue.cpp:1149-1165 | after the rate limiter has put off the head, a due second entry is unseen until the head's new time |
| `QueueRuns.RateLimitHidesInRun` | smqueue/smqueue.cpp:1149-1165 | four steps from the empty queue that lead to such a hidden message |
| `QueueRuns.DeliveriesBounded` | smqueue/smqueue.cpp:1120-1186 | over any run each message is handed to the network at most MaxRetries times |
| `QueueRuns.TagsStable` | smqueue/smqueue.cpp:787-899 | over any run a queued message keeps its tag and hash, which depend only on CSeq and from-tag |
| `QueueRuns.RegistersLinked` | smqueue/smqueue.cpp:1242-1268 | every REGISTER made in a run is linked to the tag of the SMS it was made for |
| `QueueRuns.RestoredInOrder` | smqueue/smqueue.h:1135-1143 | a saved queue read into a running one stands in front of it in its old order, with the saved states and times |
| `QueueRuns.LocatedKeepsTag` | smqueue/smqueue.cpp:2257-2376 | a host look-up gives a message its destination and a new Call-ID and leaves its tag and all other messages as they were |
| `QueueRuns.BouncesKeepSender` | smqueue/smqueue.cpp:1861-1960 | over any run a queued bounce keeps the bounce code as its sender through all lookups, if the registry maps that code to itself |
| `QueueRuns.NoBounceOfABounce` | smqueue/smqueue.cpp:1513-1555 | over any run, what was bounced is itself no bounce, if the registry maps the bounce code to itself |
| `Conservation.SetStateMovesOne` | smqueue/smqueue.h:1164-1212 | set_state moves one entry, keeps the order of the others and lands before every equal time |
| `Conservation.MoveKeepsMessages` | smqueue/smqueue.h:1164-1212 | as a bag the queue only exchanges the old version of the entry for the new one |
| `Conservation.HandleResponseExchanges` | smqueue/smqueue.cpp:298-312 | an answer removes itself and, if it is a 2xx, the entry with its tag |
| `Conservation.StepConserves` | smqueue/smqueue.cpp:1069-1091 | one step keeps all messages except those it may remove, and adds the one born in it |
| `Conservation.RunConserves` | smqueue/smqueue.cpp:383-388 | over any run every message is either still queued or was removed in NO_STATE, in DELETE_ME, as a consumed response, or by a 2xx with its tag |
| `Drain.BounceLighter` | smqueue/smqueue.cpp:1513-1555 | the message that bounces pays for the bounce it spawns |
| `Drain.TickLighter` | smqueue/smqueue.cpp:1024-1226 | every call that acts takes weight off the queue |
| `Drain.QueueDrains` | smqueue/smqueue.cpp:972-1232 | with a retry limit and nothing arriving, the acting calls are bounded by the sum of weights |
| `Drain.QueueDrainsLinearly` | smqueue/smqueue.cpp:972-1232 | that is at most 2 * MaxRetries + 8 calls per message, its bounce included |
| `Drain.QueueEmpties` | smqueue/smqueue.cpp:972-1232 | as many calls as the queue weighs, each late enough to find the head due, leave no message |
| `Registrations.RegisterCreated` | smqueue/smqueue.cpp:1669-1745 | registering puts a linked REGISTER into the queue and lets the SMS wait |
| `Registrations.RegisterAnswered` | smqueue/smqueue.cpp:341-388 | a 2xx removes the REGISTER and restarts its SMS only from the three registration states; all else stays |
| `Registrations.DuplicateAnswerIgnored` | smqueue/smqueue.cpp:341-388 | after any run since the first answer in which no message with that tag came in, a second answer only removes itself, so an SMS that has moved on is untouched |
| `TimerRows.TableAsCompiled` | smqueue/smqueue.cpp:81-127 | every delay of the timeout tables, row by row, for all pairs of states |
| `Paths.TextReachesSubscriber` | smqueue/smqueue.cpp:1024-1186 | a text that arrives at clock t, with nothing due earlier and all look-ups successful, is handed to the network by five timer calls that all read t, from its sender's number to its recipient's IMSI at the place that IMSI registered from; it then waits until t + 15000, and all other messages stay as they were |
| `Paths.TextRetried` | smqueue/smqueue.cpp:1120-1193 | unanswered, it is due again 60000 ms after its time-out call and is then sent once more |
| `LookupLaws.SenderLookedUp` | smqueue/smqueue.cpp:1861-1960 | a sender that starts like a number is kept, an IMSI of 14 or 15 characters becomes its caller id if there is one, anything else is an error; the destination is looked up at once |
| `LookupLaws.NumberFound` | smqueue/smqueue.cpp:2046-2124 | a number that the registry knows is replaced by its IMSI in the Request-URI, nothing else changes, and the host is looked up at once |
| `LookupLaws.NumberRelayed` | smqueue/smqueue.cpp:2063-2108 | an unknown number keeps its Request-URI, gets the global number as its sender if there is one, and is to be converted for the relay |
| `LookupLaws.ImsiKept` | smqueue/smqueue.cpp:2126-2145 | behind one "imsi" and one "IMSI", 14 or 15 characters are an IMSI and stay |
| `LookupLaws.ImsiRejected` | smqueue/smqueue.cpp:2137-2142 | any other length is an error |
| `LookupLaws.NoAddress` | smqueue/smqueue.cpp:2020-2042 | without a sip Request-URI or a user in it the message is in error |
| `LookupLaws.NumberBounced` | smqueue/smqueue.cpp:1513-1555 | an unknown number without a relay: one new message from the bounce code to the sender, in the state that fits how the sender is named, stands in the queue, and the message waits for its deletion |
| `LookupLaws.NotBounced` | smqueue/smqueue.cpp:1534-1553 | a message from the bounce code, or whose bounce cannot be made, is in error and nothing is born |
| `LookupLaws.SubscriberHost` | smqueue/smqueue.cpp:2280-2306 | an IMSI is sent to the host and port it registered from, with the default port or the local host where that says nothing |
| `LookupLaws.RelayHost` | smqueue/smqueue.cpp:2272-2281 | a number is sent to the relay and converted |
| `LookupLaws.NoUser` | smqueue/smqueue.cpp:2263-2268 | without a user in the Request-URI the message is in error |
| `LookupLaws.NumberReachesSubscriber` | smqueue/smqueue.cpp:2046-2306 | the two look-ups together: a known number leads to where its IMSI registered from, whatever the queue did in between |
| `AnswerLaws.AnswerHolds` | smqueue/smqueue.cpp:333-418 | 1xx, 5xx, 480 and 486 change nothing but the time of the request, by the configured delay |
| `AnswerLaws.AnswerBounces` | smqueue/smqueue.cpp:394-411 | any other 4xx puts the request into DELETE_ME and exactly one bounce of it at the front |
| `AnswerLaws.AnswerFails` | smqueue/smqueue.cpp:403-411 | a refused bounce, or a request whose bounce cannot be made, is in error and nothing is born |
| `AnswerLaws.AnswerRedirects` | smqueue/smqueue.cpp:420-424 | 3xx and 6xx put the request back to its destination look-up, after 50 minutes unless it comes from one of three states |
| `AnswerLaws.AnswerIgnored` | smqueue/smqueue.cpp:426-428 | other classes change nothing |
| `AnswerLaws.AnswerCompletes` | smqueue/smqueue.cpp:341-392 | a 2xx removes its request and leaves the others alone |
| `AnswerLaws.UnknownAnswer` | smqueue/smqueue.cpp:299-312 | an answer to no queued message only leaves the queue |
| `TimerLaws.OtherRequestFails` | smqueue/smqueue.cpp:1038-1045 | a request other than MESSAGE is in error |
| `TimerLaws.ActionTaken` | smqueue/smqueue.cpp:1747-1853 | state, time and change of the message after each short-code action that makes no new message |
| `TimerLaws.CodeReplies` | smqueue/smqueue.cpp:1789-1799 | a reply goes from the short code to the sender with no look-up of an IMSI, and the message is done |
| `TimerLaws.CodeRegisters` | smqueue/smqueue.cpp:1840-1842 | a short code that registers queues a linked REGISTER and waits 50 minutes |
| `TimerLaws.Registers` | smqueue/smqueue.cpp:1669-1745 | registering queues a REGISTER in the name of the sender, linked to the message, which looks again after 2000 ms |
| `TimerLaws.RegistersWhenKnown` | smqueue/smqueue.cpp:1195-1215 | once a caller id is known this happens in the same call |
| `TimerLaws.AsksEverySecond` | smqueue/smqueue.cpp:1200-1205 | until then the registry is asked every 1000 ms |
| `TimerLaws.AsksAgain` | smqueue/smqueue.cpp:1217-1225 | an unanswered REGISTER leads back to asking, 1000 ms later |
| `TimerLaws.CannotRegister` | smqueue/smqueue.cpp:1679-1734 | a REGISTER that cannot be made deletes the message |
| `TimerLaws.CannotRegisterWhenKnown` | smqueue/smqueue.cpp:1195-1215 | also when it follows on the wait for a caller id |
| `TimerLaws.CodeCannotRegister` | smqueue/smqueue.cpp:1840-1842 | and when a short code asked for it |
| `TimerLaws.Delivers` | smqueue/smqueue.cpp:1125-1186 | a try is counted, the message is handed over once and waits 15000 ms for its answer |
| `TimerLaws.Retries` | smqueue/smqueue.cpp:1120-1186 | a retry does the same in one call |
| `TimerLaws.DeliveryFails` | smqueue/smqueue.cpp:1134-1148 | a message that cannot be packed is in error, one tried MaxRetries times is deleted, and neither is sent |
| `TimerLaws.RetryFails` | smqueue/smqueue.cpp:1120-1148 | the same for a retry |
| `TimerLaws.DeliveryPutOff` | smqueue/smqueue.cpp:1153-1160 | within the rate limit the message waits where it stands, by the rate limit, and the try counts |
| `TimerLaws.Unanswered` | smqueue/smqueue.cpp:1188-1193 | an unanswered message is tried again 60000 ms later |
| `TimerLaws.OthersRestart` | smqueue/smqueue.cpp:1093-1104 | a message in a state without a case has its sender looked up and goes on 50 minutes later |
| `TimerLaws.Leaves` | smqueue/smqueue.cpp:1069-1091 | a message in error or done leaves the queue alone |
| `TimerLaws.NotDueYet` | smqueue/smqueue.cpp:987-1002 | a call before the head is due does nothing |
| `SmQueue.SMq.FindPlace` | smqueue/smqueue.h:1164-1212 | the scan loop stops at the first entry that is not earlier |
| `SmQueue.SMq.SetState` | smqueue/smqueue.h:1164-1212 | the method re-queues exactly as the step function says and returns the new position |
| `SmQueue.SMq.SetStateInPlace` | smqueue/smqueue.h:713-734 | state and time change where the entry stands |
| `SmQueue.SMq.InsertNewMessage` | smqueue/smqueue.h:1123-1133 | a new message stands at the front with the timer from NO_STATE |
| `SmQueue.SMq.Receive` | smqueue/smqueue.cpp:2383-2488 | a valid datagram is queued and the invariant kept |
| `SmQueue.SMq.ReadBack` | smqueue/smqueue.h:1135-1143 | a restored entry is queued with its saved state and time and the invariant kept |
| `SmQueue.SMq.BounceMessage` | smqueue/smqueue.cpp:1513-1555 | next state of a bounced message, and the bounce that is queued unless the sender is the bounce code |
| `SmQueue.SMq.RegisterHandset` | smqueue/smqueue.cpp:1669-1745 | queues the REGISTER and re-queues the SMS as the step function says |
| `SmQueue.SMq.HandleShortCode` | smqueue/smqueue.cpp:1747-1853 | each short-code action has the effect of its step function |
| `SmQueue.SMq.LookupFrom` | smqueue/smqueue.cpp:1861-1960 | sender lookup and re-queueing |
| `SmQueue.SMq.LookupImsi` | smqueue/smqueue.cpp:2020-2175 | destination lookup, relaying and bouncing |
| `Lookups.RegisteredAddress` | smqueue/smqueue.cpp:2280-2304 | an IMSI is sent to the host and port it registered from, split at the colon, with the default port if there is none |
| `SmQueue.SMq.LookupHost` | smqueue/smqueue.cpp:2257-2376 | destination, requested conversion, Call-ID and tag are set and the message is re-queued |
| `SmQueue.SMq.Attempt` | smqueue/smqueue.cpp:1134-1186 | give up, wait for the rate limit, or send |
| `SmQueue.SMq.Answer` | smqueue/smqueue.cpp:313-436 | the status code switch |
| `SmQueue.SMq.HandleResponse` | smqueue/smqueue.cpp:286-436 | the response leaves, its request is found by tag and answered |
| `SmQueue.SMq.Dispatch` | smqueue/smqueue.cpp:1024-1226 | the state switch |
| `SmQueue.SMq.ProcessTimeout` | smqueue/smqueue.cpp:972-1232 | one call of the timer, with the invariant kept |
| `Bits.FieldAt` | SMS/SMSMessages.cpp:316-328 | a field written most significant bit first reads back wherever it stands |
| `Bits.FieldReversedAt` | SMS/SMSMessages.cpp:559-564 | the same for the reversed form |
| `Octets.ReverseOctetsTwice` | SMS/SMSMessages.cpp:653-662 | reversing the bits of every octet is its own inverse |
| `Octets.ReversedOctetsValue` | SMS/SMSMessages.cpp:703-714 | octets of the reversed frame, as a number in base 256, are the bits read least significant first |
| `GsmAlphabet.CharRoundTrip` | GSM/GSMCommon.cpp:37-53 | a character survives encoding and decoding if and only if the alphabet has it |
| `GsmAlphabet.MissingBecomesAt` | GSM/GSMCommon.cpp:43-52 | every other character is sent as the at sign |
| `GsmAlphabet.BasicIsItself` | GSM/GSMCommon.h:60-62 | letters, digits and common punctuation keep their ASCII code although some occur twice in the table |
| `GsmAlphabet.AlphabetAsPrinted` | GSM/GSMCommon.h:53-62 | every septet decodes to its character in the alphabet as printed, eight rows of sixteen |
| `GsmAlphabet.EncodedAsPrinted` | GSM/GSMCommon.cpp:37-53 | every character of it is sent as its own place, but a stand-in for a Greek capital or the escape as the Latin letter or space that it is |
| `GsmAlphabet.MovedCharacters` | GSM/GSMCommon.h:53-62 | the codes of the at sign, dollar, underscore, line feed and carriage return |
| `GsmAlphabet.Encoder.Encode` | GSM/GSMCommon.cpp:37-53 | the table filled on the first call gives the last index of a character |
| `UserData.EncodeDecode` | SMS/SMSMessages.cpp:543-621 | decoding an encoded text gives it back if and only if it is in the alphabet, at any length |
| `UserData.PackingIsBaseConversion` | SMS/SMSMessages.cpp:543-565 | the octets on the wire in base 256 are the septets of the text in base 128 |
| `UserData.WireReadsBack` | SMS/SMSMessages.cpp:653-713 | a written element is parsed with the same data and its length modulo 256 |
| `UserData.WireRoundTrip` | SMS/SMSMessages.cpp:653-713 | encode, write, parse, decode gives the text back if and only if it has at most 255 characters, all in the alphabet |
| `UserData.HeaderSeptetsLeast` | SMS/SMSMessages.cpp:590-600 | the skipped septets are the fewest that cover the header and its length octet |
| `UserData.HeaderSkipped` | SMS/SMSMessages.cpp:578-611 | decoding gives exactly the septets behind header and fill bits, all read inside the checked range |
| `UserData.HeaderFits` | SMS/SMSMessages.cpp:578-611 | a message with a header decodes if and only if the header ends inside the counted septets, or the data hold a text length that has wrapped around in 32 bits |
| `UserData.TLUserData.Encode7bit` | SMS/SMSMessages.cpp:543-565 | the packing loop leaves the septets and a zero filler |
| `UserData.TLUserData.DecodeText` | SMS/SMSMessages.cpp:567-621 | the decoding loop, its bounds check, header skip with the unsigned difference, and error cases |
| `UserData.TLUserData.Write` | SMS/SMSMessages.cpp:703-714 | length octet, data, and reversed octets up to the end of the frame |
| `UserData.TLUserData.Parse` | SMS/SMSMessages.cpp:653-662 | length octet and reversed octets of the rest of the frame |
| `ValidityPeriod.RoundsUp` | SMS/SMSMessages.cpp:518-527 | up to twelve hours the code is the least representable period that is long enough |
| `ValidityPeriod.RoundsDown` | SMS/SMSMessages.cpp:518-527 | above that it is the greatest representable period that is not longer |
| `ValidityPeriod.ExpiredIsShortest` | SMS/SMSMessages.cpp:518-520 | a period that is over is sent as the shortest one |
| `ValidityPeriod.EncodeUndoesDecode` | SMS/SMSMessages.cpp:476-487 | encoding undoes decoding on every code |
| `ValidityPeriod.Ranges` | SMS/SMSMessages.cpp:476-487 | the four ranges of codes count five minutes, half hours, days and weeks |
| `ValidityPeriod.FormatsDisagree` | SMS/SMSMessages.cpp:471-510 | a written period reads back rounded as format 2, and as one week under the writer's own format number |
| `ValidityPeriod.WholeMinutes` | SMS/SMSMessages.cpp:518-519 | seconds are cut to minutes towards zero, for past times too |
| `ValidityPeriod.Write` | SMS/SMSMessages.cpp:513-529 | the branches of the writer give the code of the rounding lemmas |
| `BcdDigits.DigitsRoundTrip` | GSM/GSML3CCElements.cpp:29-85 | the octets of a digit string read back as the string, plus included, up to exactly lengthV octets |
| `BcdDigits.CleanedBits` | GSM/GSML3CCElements.cpp:61-77 | any string is sent as the digits it has, with a zero for every other character |
| `BcdDigits.WriteDigits` | GSM/GSML3CCElements.cpp:61-77 | the writing loop fills exactly 8 * lengthV bits with the swapped nibbles |
| `BcdDigits.ParseDigits` | GSM/GSML3CCElements.cpp:29-58 | the parsing loop, its errors and the read position it leaves |
| `Layers.LvLength` | GSM/GSML3Message.cpp:171-176 | an element in whole octets fills one octet more than its length |
| `Layers.EndCheckPasses` | GSM/GSML3Message.cpp:125-135 | the end check of parseLV never fails, on any input |
| `Layers.SkipAgreesWithParse` | GSM/GSML3Message.cpp:72-79 | skipLV moves over exactly what parseLV reads |
| `Layers.SkipTlvAgreesWithParse` | GSM/GSML3Message.cpp:82-92 | skipTLV moves over exactly what parseTLV reads |
| `Layers.LvReadsBack` | GSM/GSML3Message.cpp:125-176 | an element written anywhere in a frame reads back whole, up to where it ends |
| `Layers.TlvReadsBack` | GSM/GSML3Message.cpp:158-182 | an optional element reads back under its tag, and under another tag nothing is read |
| `Layers.WriteLv` | GSM/GSML3Message.cpp:171-176 | the bits that writeLV leaves in the frame |
| `Layers.WriteTlv` | GSM/GSML3Message.cpp:178-182 | the bits that writeTLV leaves in the frame |
| `RelayLayer.RpAccounting` | SMS/SMSMessages.cpp:316-328 | RP-DATA fills exactly bitsNeeded bits |
| `RelayLayer.RpRoundTrip` | SMS/SMSMessages.cpp:307-355 | RP-DATA reads back with the same reference, addresses and TPDU |
| `RelayLayer.CpRoundTrip` | SMS/SMSMessages.cpp:200-256 | CP-DATA fills 24 bits more than its RPDU and reads back |
| `RelayLayer.NestedRoundTrip` | SMS/SMSMessages.cpp:200-355 | RP-DATA inside CP-DATA reads back through both parsers, with exact accounting |
| `RelayLayer.RPData.Write` | SMS/SMSMessages.cpp:316-355 | the writer with its advancing position leaves exactly that frame |
| `RelayLayer.RPData.Parse` | SMS/SMSMessages.cpp:307-344 | the parser with its errors |
| `RelayLayer.CPData.Write` | SMS/SMSMessages.cpp:200-221 | the frame of CPMessage::write |
| `RelayLayer.CPData.Parse` | SMS/SMSMessages.cpp:70-88 | parseSMS on a frame of type CP-DATA |
| `RelayLayer.TlAddressRoundTrip` | SMS/SMSMessages.cpp:420-453 | a TP address reads back, position included, if and only if it has no plus or an odd number of digits |
| `RelayLayer.WriteTlAddress` | SMS/SMSMessages.cpp:446-453 | length octet counting the plus, type octet, digits |
| `WireLaws.DeliverStarts` | SMS/SMSMessages.cpp:817-822 | SMS-DELIVER starts with octet 4, or 68 with a user data header |
| `WireLaws.CodesStand` | SMS/SMSMessages.cpp:823-826 | behind the address stand protocol identifier, coding scheme and time stamp |
| `WireLaws.RelayStarts` | SMS/SMSMessages.cpp:316-325 | RP-DATA to a handset starts with octet 1 and the reference |
| `WireLaws.ConnectionStarts` | SMS/SMSMessages.cpp:200-208 | CP-DATA starts with the transaction, discriminator 9 and type 1 |
| `WireLaws.AddressStarts` | SMS/SMSMessages.cpp:446-452 | a TP address starts with its character count and 128 + 16 * type + plan |
| `WireLaws.DigitOctet` | GSM/GSML3CCElements.cpp:61-77 | octet k holds digit 2k in its low half and digit 2k + 1, or 15, in its high half |
| `Malformed.NumberRead` | GSM/GSML3CCElements.cpp:29-58 | a number is read if and only if its octets are all there and it has at most 20 characters |
| `Malformed.ExtensionNeeded` | SMS/SMSMessages.cpp:420-434 | either kind of address is refused without its extension bit |
| `Malformed.DataRefused` | SMS/SMSMessages.cpp:567-583 | user data in another coding, or shorter than their count of septets, are refused |
| `Malformed.RelayCutShort` | SMS/SMSMessages.cpp:307-344 | an RP-DATA frame that has lost any part of its end is refused |
| `Malformed.ConnectionCutShort` | SMS/SMSMessages.cpp:213-249 | and so is a CP-DATA frame |
| `Deliver.DeliverAccounting` | SMS/SMSMessages.cpp:809-813 | SMS-DELIVER fills exactly bitsNeeded bits and its user data end the frame |
| `Deliver.WriteDeliver` | SMS/SMSMessages.cpp:817-829 | header bits, address, codes, time stamp and user data in their places |
| `Deliver.EncodedFits` | SMS/SMSMessages.cpp:809-813 | every text of up to 255 characters makes a SMS-DELIVER that fits the relay layer's length octet |
| `Handset.DeliverReadsBack` | SMS/SMSMessages.cpp:817-829 | read field by field, address first, a SMS-DELIVER from any sender gives its text if and only if the sender has no plus or an odd number of characters behind it and the text has at most 255 characters, all in the alphabet |
| `Handset.TextArrives` | smqueue/smsc.cpp:225-270 | the same through RP-DATA, for every text: longer ones never arrive |
| `Packing.PackKeepsText` | smqueue/smsc.cpp:524-594 | after a successful call the message carries the text it had if and only if its route can hold it |
| `Packing.PlainRepackKeepsText` | smqueue/smsc.cpp:559-578 | without a conversion every successful call keeps the text |
| `Packing.LaterCallsDoNothing` | smqueue/smsc.cpp:529-532 | after one success all later calls leave the message alone |
| `Senders.ConvertedTextArrives` | smqueue/smsc.cpp:434-453 | the frame of a converted message gives a handset the text of get_text if and only if the sender, the length and the alphabet allow it |
| `Senders.SenderReadsBack` | SMS/SMSMessages.h:94-107 | the address read behind the first octet is the sender, cut to 20 characters, with type 1 for a plus and 2 without, plan 1, if and only if its plus counts |
| `Senders.ShownAsItIs` | GSM/GSML3CCElements.h:36-44 | digits of at most 20 characters, with or without a plus, are shown as they are |
| `Senders.SenderArrives` | smqueue/smsc.cpp:225-270 | the frame of every new SMS-DELIVER gives a handset that sender, and reference, service center and time stamp |
| `Packing.PidSent` | smqueue/smsc.cpp:236-246 | a text that starts with the mark and a number is sent with that protocol identifier |
| `Packing.PidNegative` | smqueue/smsc.cpp:242-246 | a negative number behind the mark wraps around in 32 bits |
| `Packing.PidKept` | smqueue/smsc.cpp:234-240 | without the mark, or with no number behind it, 64 is kept and any other protocol identifier becomes 0 |
| `Packing.PackedAs` | smqueue/smsc.cpp:524-594 | the header says the type that was asked for, the direction is down, and a body stays a body |
| `Packing.BodyIsFrame` | smqueue/smsc.cpp:182-223 | the body holds the new relay layer message in its armour |
| `Packing.TextRead` | smqueue/smqueue.h:464-521 | the text of a plain body, of a SMS-SUBMIT going up and of a SMS-DELIVER going down |
| `Packing.NothingRead` | smqueue/smqueue.h:464-521 | the cases in which there is no text |
| `Packing.ShortMsg.GetMessageText` | smqueue/smqueue.h:464-521 | get_text by content type and direction |
| `Packing.ShortMsg.CreateSmsDelivery` | smqueue/smsc.cpp:225-270 | chooses the protocol identifier and replaces both layers, the body and the direction |
| `Packing.ShortMsg.PackForDelivery` | smqueue/smsc.cpp:524-594 | all branches of the packing function |
| `Streams.NumberReadsBack` | smqueue/smqueue.cpp:2584-2594 | a number behind a blank reads back if it fits 32 bits and fails otherwise |
| `Streams.NegativeWraps` | smqueue/smqueue.cpp:2584-2594 | a negative time is written with its sign and comes back as its 32-bit wrap-around |
| `QueueFile.SaveQueue` | smqueue/smqueue.cpp:2514-2554 | the loop writes one record per entry, last entry first |
| `QueueFile.RecordLines` | smqueue/smqueue.cpp:2533-2540 | a record is the line of six fields and the text between newlines |
| `QueueFile.ReadQueue` | smqueue/smqueue.cpp:2560-2660 | the reading loop over any file, texts cut short by a NUL or the end of the file included |
| `QueueFile.RecordReadsBack` | smqueue/smqueue.cpp:2584-2640 | a saved record reads back as its entry up to the next record, even if the text contains a record mark |
| `QueueFile.LoadsOnlyRestorable` | smqueue/smqueue.cpp:2560-2660 | from any file without NULs reading puts entries with valid fields in front of the queue and changes nothing behind them; only a text at the very end may be cut short |
| `QueueFile.SaveThenLoad` | smqueue/smqueue.cpp:2514-2660 | a saved queue of C strings comes back in front of the queue it is read into, in the same order, if and only if every entry is restorable |
| `QueueFile.LateTimeHangs` | smqueue/smqueue.cpp:2584-2588 | a time of 33 bits or more makes the reader go on forever |
| `RegisterCode.ScanNumber` | smqueue/smcommands.cpp:278-311 | the loop that reads a number out of a message |
| `RegisterCode.ScanMeaning` | smqueue/smcommands.cpp:278-311 | it accepts exactly digits, fillers and one plus before all digits, and collects the number without fillers |
| `RegisterCode.GoodNumbers` | smqueue/smcommands.cpp:312-325 | exactly which messages are good: length in range, or override allowed and three exclamation marks |
| `RegisterCode.FreeNumber` | smqueue/smcommands.cpp:345-376 | for a free number the registry's answer decides: register, wait, tell, or ask again, and what is added or promised |
| `RegisterCode.NoFreeNumber` | smqueue/smcommands.cpp:322-343 | a subscriber with a number and a taken number are told so and nothing is added |
| `RegisterCode.NoNumber` | smqueue/smcommands.cpp:278-325 | any other message is answered with its fault, a wrong length with its length |
| `RegisterCode.FirstFault` | smqueue/smcommands.cpp:279-305 | the fault that is told is the first one in the text: an invalid character or a misplaced plus |
| `RegisterCode.MessageKeeps` | smqueue/smcommands.cpp:327-376 | one request adds at most one good number, to a new subscriber, and keeps the registry one-to-one |
| `RegisterCode.RegistryStaysOneToOne` | smqueue/smcommands.cpp:257-384 | over any sequence of requests without delayed answers the registry stays one-to-one and keeps all numbers |
| `RegisterCode.RerunWelcomes` | smqueue/smcommands.cpp:330-343 | an accepted request that is run again later is welcomed and adds nothing |
| `RegisterCode.LandingKeeps` | smqueue/smcommands.cpp:362-364 | a delayed addition keeps the registry one-to-one if and only if nobody else holds the number by then |
| `RegisterCode.DelayedCanCollide` | smqueue/smcommands.cpp:362-364 | two subscribers with delayed answers can end up with one number |
| `RegisterCode.Registrar.RunRegister` | smqueue/smcommands.cpp:257-384 | all branches of the short code |

## Left out

- Sockets, polling, POSIX message queues, threads, logging, configuration tables and the billing file. Each section under the list lock is one step.
- osip parsing and printing, the subscriber registry and the hex and base64 codecs: SIP messages are records of the fields used, and answers from elsewhere are inputs. The registry's built-in test table is part of its answers.
- Lookups.Destination: the number of a new Call-ID, also the one kept for all REGISTER messages, and the address a subscriber registered from are inputs.
- Clock readings are inputs of the steps; the invariant uses the greatest one so far, so a clock that goes back is covered.
- The identity `id` of a queue entry stands for its list node; the program has no such field.
- `respond_sip_ack` and the message object handed between threads: object lifetime, not queue order.
- `shortcode_zap_queued` and the other short codes except registration: their action is an input. The first advances an iterator that it has erased.
- `L3TimeZoneAndTime`: the 56 bits of a time stamp are an input, and the absolute validity period is not parsed.
- HTTP and mail gateways, the test programs and packaging scripts.
- BitVector is not part of this model: its fields, tails and LSB8MSB are modelled by their contracts, and a read past the end of a frame is an error result.
- CP-ACK, CP-ERROR, RP-ACK, RP-ERROR and SMS-SUBMIT bodies: only the parts they share with the modelled messages.
- `mUserData` of CP-DATA rounds its length down and that of RP-DATA up; both are modelled for whole octets, where they agree.
- QueueFile.ReadQueue: a record that the end of the file cuts off before its text counts as rejected, where the program hands an empty buffer to the SIP parser.
- QueueFile.SaveThenLoad: retries, link, relay flag and requested conversion are not in the file; addresses are words that the address parser turns back into the same address, which is an input.
- UserData.TLUserData.DecodeText: reading behind the data is an error result; memory for a text length that has wrapped around is not modelled.
- UserData.TLUserData.Encode7bit: lengths are unbounded, where products of the length wrap around in 32 bits from 613566757 characters on.
- Packing.ShortMsg.PackForDelivery: the message has been parsed before, as in every call.
- Packing.ShortMsg.CreateSmsDelivery: the octet found when a SMS-DELIVER is taken for a SMS-SUBMIT is an input, and a number behind the mark is taken modulo 2^32, where sscanf leaves an overflow undefined.
- RegisterCode.RegistryStaysOneToOne: excludes delayed answers, because what the registry does later is outside the program; `LandingKeeps` says when it still holds.
- Drain.QueueDrains: leaves out registration states, SIP responses and short codes with effects, which wait for or depend on the outside.
