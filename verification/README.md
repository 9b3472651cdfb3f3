# Verified models of the compositor and its seat daemon

This project models the parts of the repository where state, formats and protocols
meet, and proves what they promise. Every `.dfy` file is one component:

- **Standard message format** — `StdFormat` (what bytes a value becomes at an address, and
  what a reader finds there), `StdCodec` (the writer over a buffer and a cursor),
  `StdReader` (the reader over a cursor and a remaining count), `StdRoundTrip`,
  `StdMemory` (the slots and the bytes that decoded containers and arrays are given),
  `StdMessages` (size calculation and method calls), `StdWhole` (which bytes readers need,
  and what the format looks like byte by byte), `DartReader` (the second, independent
  reader) and `MessageBuilder` (the second, independent encoder). A value's encoding is a
  sequence of cells, bytes or padding, because the writer skips over padding and whatever
  was in the buffer stays there.
- **JSON** — `Jsmn` (the tokenizer as a function), `JsmnParser` (the tokenizer as it runs,
  over a token array with its position, token count and parent), `JsmnStructure` (what the
  tokens say), `JsmnBrackets` (which texts it accepts), `Json` (printing, and rebuilding
  from tokens), `JsonCodec` (size and printer over a buffer), `JsonReader` (the reader that
  leaves its strings in the message), `JsonTokens` (when rebuilding wants more tokens than
  there are), `JsonBounds` (when it writes behind the message), `JsonText`,
  `JsonRoundTrip`, `JsonSpace` (white space between tokens) and `JsonMeaning` (what escapes
  and words stand for).
- **Seat daemon** — `SeatModel` (the seat, its clients and their device tables as a state
  machine with a log), `SeatLog`, `SeatDevices`, `SeatInvariant`, `SeatSteps`, `SeatRuns`
  (what holds over whole runs), `SeatSessions` (who has which session), `SeatEffects` (what
  each operation does to clients, devices and the seat), `SeatFates` (who gets the seat and
  which devices come back, over whole runs) and `Seatd` (the daemon's own code, updating
  clients in place, which does exactly the steps of the state machine).
- **Byte transport** — `Connection` (the ring of 256 bytes, the connection, two ends and a
  wire) and `Framing` (requests on top of it).
- **Event loop** — `LinkedList` (the intrusive circular list over real links) and `Poller`.
- **Compositor** — `TaskQueue`, `RendererPages`, `RoundedClip`.

Code that updates state in place is a class or a method with loops, proved against a
function; the lemmas about that function are what the component promises.

System calls, the clock, memory, the network and callbacks are inputs: `SeatModel.Env`
holds what the kernel and the connection answer to one request, `Connection.Send` and
`Connection.Recv` what a socket answers, `Framing.Rooms` what memory that was not written
holds, `TaskQueue.Post` a task and the clock it was posted by, `Poller.Act` what an owner
does in a callback.

Where the code does not do what it is for, the model keeps the code:

- The task queue compares the earliest target with the largest 16-bit number
  (`src/task.c:37`) where the loop before it starts from the largest 64-bit one, so for a
  queue whose earliest target is 65535 nothing is arranged. `TaskQueue.WakesIff` is the
  exact condition for what one schedule arranges. What wakes the queue may also be left
  from before: it is woken after a schedule exactly if the event was pending, or the
  schedule arranges it, or the earliest target is 65535 and the timer is already set to
  just after it (`TaskQueue.ArmedRingsIff`, over whole runs `TaskQueue.RunsWakeIff`).
  `TaskQueue.PostedButNeverWoken` is a queue that waits forever,
  `TaskQueue.WokenByLeftoverTimer` one that another task's timer wakes.
- A method-call response never survives encoding and decoding, because the decoder reads
  the status byte the other way round (`StdMessages.ResponseNeverSurvives`).
- JSON strings are escaped when printed and never unescaped when read, so the round trip
  is the identity exactly without escapes (`JsonRoundTrip.RoundTripIff`); and a quote
  prints as a tab does (`JsonRoundTrip.QuoteAndTabPrintAlike`). A reader that did unescape
  as section 7 of RFC 8259 has it would get every string back with a tab for each quote,
  so exactly the strings without quotes (`JsonMeaning.UnescapeInverts`,
  `JsonMeaning.UnderstoodRoundTripIff`).
- A word that is no string and no bracket is taken for null, true, false or a number by its
  first character alone (`JsonMeaning.WordIsRead`): `nope` is null, `yes` is a number
  (`JsonMeaning.WordsAreTaken`).
- The JSON reader puts a terminator behind a number while it converts it. In a buffer of
  exactly the message's size it writes outside exactly when the last token is a number
  that ends the text and rebuilding comes to it (`JsonBounds.WritesOutsideIff`,
  `JsonReader.DecodeMessage`): `5` and `[]:5` do, `"a" 5` does not, and of all printed
  values exactly the numbers do (`JsonBounds.PrintedWritesOutsideIff`).
- The second reader makes a list of a map and loses the sign of an int32
  (`DartReader.SeenIsMeaningIffFaithful`, `DartReader.SignAndMapAreLost`).
- Pushing a bool does not count as a value of its segment (`MessageBuilder.PushTree`), and
  a length of 254 or more is written over the start of the message, while the bytes it
  belongs in are left as they were. `MessageBuilder.StringReadsBackIff` is the exact
  condition for a string to be read back, `MessageBuilder.FirstStringLost` the first
  string that is not, `MessageBuilder.StringReadByAccident` a longer one that is if the
  memory it skips happens to hold its length.
- A numeric array's byte count wraps at 32 bits in the reader
  (`StdMemory.DecodedIsWholeIff`, `StdMemory.ArrayWithoutMemory`).
- So does the number of slots a decoded map is given, from 2^31 pairs on; a key or a value
  may then be stored outside them (`StdMemory.StaysInsideIff`, `StdMemory.KeyWithoutSlot`,
  `StdMemory.ValueWithoutSlot`).
- The JSON reader does not count the tokens that are left. It may look for one behind a
  full token list (`JsonTokens.PastListIff`, `JsonTokens.GreedyReadsPastList`); printed
  values and texts of fewer than 128 tokens never make it
  (`JsonRoundTrip.DecodePrinted`, `JsonTokens.CountRulesOutPastList`).
- The first client of a seat that is not bound to VTs gets session 0, and a switch to
  session 0 is refused, so it can never be switched to (`SeatSessions.SwitchReachesIff`);
  `SeatSessions.FirstIsNeverSwitchedTo` is a run after which it waits for that.
- The path of an open_device request is copied into a buffer that is not initialised and
  read from there as a C string (`subprojects/seatd-0.7.0/seatd/client.c:374-385`). What
  is read is a function of the bytes received exactly when every path holds a NUL
  (`Framing.HeardIffTerminated`, `Framing.PathWithoutEnd`); a path that fills the buffer
  without one is read on past it (`Framing.PathRunsOn`).
- A request with a payload may declare more bytes than its fields take. What is left is not
  skipped but taken for the next header (`Framing.SurplusIsTheNextHeader`).
- A client that declares more than 252 payload bytes fills the ring for good
  (`Framing.FullRingStaysFullIff`, `Framing.RingFullForGood`); its next read is an overflow
  and it is dropped.
- A scene that shows a texture not handed out for its own frame may see it deleted or
  drawn over: it is safe exactly if its layers use this frame's stores
  (`RendererPages.Renderer.PresentLayers`, `RendererPages.DrawnOverWhileShown`,
  `RendererPages.DeletedWhileShown`).
- A map that the builder announces with 2^31 pairs expects none, because twice the size is
  cut to 32 bits (`MessageBuilder.Segment.PushContainer`,
  `MessageBuilder.WideMapExpectsNothing`).

## Model

| member | source | states |
|---|---|---|
| StdFormat.Gap | src/platform_channel.c:78-85 | the alignment trick reaches the next multiple of 4 or 8, moving less than that |
| StdRoundTrip.DecodeInvertsEnc | src/platform_channel.c:574-722 | for every nested value, at every address, whatever lies in its padding and after it, the reader returns the value as its C strings read and consumes exactly its cells |
| StdRoundTrip.AsReadIsIdentityIffNulFree | src/platform_channel.c:367-383 | the value read equals the value written exactly when no string in it holds a NUL |
| StdRoundTrip.RoundTripAcrossAddresses | src/platform_channel.c:64-94 | a value written at one address is read back at any other equal to it modulo 8 |
| StdRoundTrip.EncShift | src/platform_channel.c:64-94 | padding, and so the whole encoding, depends on the address modulo 8 only |
| StdMemory.DecodedArrayIsWholeIff | src/platform_channel.c:636-683 | a decoded numeric array has the memory of all its elements exactly when the size declared before it does not wrap at 32 bits as a byte count |
| StdMemory.DecodedIsWholeIff | src/platform_channel.c:636-683 | all arrays inside a decoded value, however nested, have all their memory exactly when no array header come upon declares a size that wraps |
| StdMemory.ArrayWithoutMemory | src/platform_channel.c:636-651 | tag 9, a size of 2^30 and padding decode to an array of 2^30 elements with no bytes |
| StdMemory.StaysInsideIff | src/platform_channel.c:697-716 | on every byte string, all children are stored into slots of their own containers exactly when each map header come upon declares fewer than 2^31 pairs, or the bytes end before the first key (at 2^31 pairs) or the first value (above) |
| StdMemory.KeyWithoutSlot | src/platform_channel.c:702-707 | a map of 2^31 pairs and one null: a key for which no slot was allocated |
| StdMemory.ValueWithoutSlot | src/platform_channel.c:702-707 | a map of one pair more: the key has a slot, a value behind it has none |
| StdMemory.EncodedStaysInside | src/platform_channel.c:684-716 | decoding an encoded value comes upon small maps and whole arrays only, so everything is stored inside |
| StdRoundTrip.EncItemsConcat | src/platform_channel.c:413-434 | values written one after the other, each padded for where it lands |
| StdRoundTrip.ReadSizeInverts | src/platform_channel.c:115-159 | the size read back is the size written, in one, three or five bytes |
| StdCodec.PutPut | src/platform_channel.c:48-62 | two consecutive writes are one write of both |
| StdCodec.PutMatches | src/platform_channel.c:345-440 | what was written over any buffer is an encoding of the value, whatever the buffer held |
| StdCodec.WriteCursor.WriteValue | src/platform_channel.c:345-440 | the writer puts exactly the value's cells at the cursor, leaves every other byte and moves past them |
| StdCodec.WriteCursor.WriteChildren | src/platform_channel.c:413-434 | the element loop of lists and maps writes the children's cells one after the other |
| StdReader.AfterOne | src/platform_channel.c:684-716 | one turn of the element loop and then the rest is the whole loop |
| StdReader.ReadCursor.ReadValue | src/platform_channel.c:574-722 | on every byte string: stray exactly when some child was to be stored outside the slots of its container; otherwise the reader ends, and on success or failure the cursor and the remaining count moved together over what the format says was consumed |
| StdReader.ReadCursor.ReadItems | src/platform_channel.c:684-716 | the element loop of lists and maps, each child into its slot; stray exactly when one has none |
| StdReader.ReadCursor.ReadLength | src/platform_channel.c:136-159 | the size reader, which keeps what it consumed when it fails half way |
| StdReader.ReadCursor.ReadRaw | src/platform_channel.c:64-94 | skipping to alignment and taking elements, with the byte count as the code truncates it |
| StdMessages.CalcValueSize | src/platform_channel.c:248-344 | the calculated size is the length of what the writer writes at that offset, padding included |
| StdMessages.EncodeMethodCall | src/platform_channel.c:990-1000 | the buffer of the calculated size is filled exactly by the name and the argument |
| StdMessages.DecodeMethodCall | src/platform_channel.c:912-926 | the call found in the bytes, or a refusal when the first value is no string; stray exactly when a child of either is stored outside its container |
| StdMessages.CallRoundTrip | src/platform_channel.c:1066-1073 | an encoded call decodes at any 8-aligned address, with all children inside their containers, to its name and argument, to themselves exactly when neither holds a NUL |
| StdMessages.ResponseNeverSurvives | src/platform_channel.c:927-950 | a success response is refused and an error response comes back as a success holding its code |
| StdWhole.ResponseAsRead | src/platform_channel.c:927-950 | what is read as a response: a status byte other than 0 and a value is a success, 0 and a code, a message or null and details is an error with these |
| StdWhole.DecodeWhole | src/platform_channel.c:574-722 | whatever byte string a value is read from: cut anywhere behind the bytes that were consumed it is read the same, and cut before it is refused |
| StdWhole.ThreeForms | src/platform_channel.c:136-159 | the three forms of a size, also longer ones than a size needs |
| StdWhole.UnknownTag | src/platform_channel.c:574-722 | no bytes, or a tag that a reader does not know, are refused by both readers |
| StdWhole.ScalarsOnTheWire | src/platform_channel.c:345-366 | constants and integers byte by byte, little end first |
| StdWhole.StringsOnTheWire | src/platform_channel.c:367-393 | a large integer, a string and a byte array byte by byte |
| StdWhole.FloatOnTheWire | src/platform_channel.c:361-366 | a float is padded to 8 bytes |
| StdWhole.ArraysOnTheWire | src/platform_channel.c:384-412 | numeric arrays: tag, number of elements, padding to the element size, elements |
| StdWhole.ContainersOnTheWire | src/platform_channel.c:413-434 | lists and maps: tag, size, which for a map counts pairs, then the values |
| DartReader.ReadDartInvertsEnc | src/standard_message_codec.c:388-482 | the second reader reads back exactly the values of kinds it knows, in either encoder's bytes, and consumes exactly their cells |
| StdWhole.ReadDartEntire | src/standard_message_codec.c:388-482 | the second reader too needs every byte it consumes and none behind them, on every byte string |
| DartReader.SeenIsMeaningIffFaithful | src/standard_message_codec.c:406-477 | what it reads means what was written exactly on values without negative int32 and without maps |
| DartReader.SignAndMapAreLost | src/standard_message_codec.c:406-477 | an int32 of -1 is read as 2^32 - 1, and a map as the list of its keys and values |
| DartReader.MessageReader.MessageRead | src/standard_message_codec.c:388-482 | the reader over buffer and offset, which never passes the end and keeps what it consumed when it fails |
| DartReader.MessageReader.ReadValues | src/standard_message_codec.c:443-477 | the value loop of a list, or of a map with its doubled count |
| MessageBuilder.BuilderState.Reserve | src/standard_message_codec.c:76-93 | growing the buffer makes room for what is required and keeps what was built |
| MessageBuilder.Segment.PushString | src/standard_message_codec.c:187-203 | appends the string up to its NUL and counts one value; its length goes before it below 254, and from 254 on over the start of the message, behind it a marker and bytes that are not written |
| MessageBuilder.Segment.PushContainer | src/standard_message_codec.c:294-342 | appends tag and size, whatever the size, as a string's length is, and opens a segment that expects the size, or twice the size for a map, cut to 32 bits |
| MessageBuilder.WideMapExpectsNothing | src/standard_message_codec.c:318-354 | a map announced with 2^31 pairs may be finished at once without being noted as incomplete |
| MessageBuilder.Segment.Finish | src/standard_message_codec.c:344-354 | closes a segment, and notes a wrong level and a wrong number of values |
| MessageBuilder.PushTree | src/standard_message_codec.c:132-354 | the bracketed pushes for a tree append the recursive encoding of it, at the right level throughout, and log exactly the containers that directly hold a bool as incomplete |
| MessageBuilder.CountedAllIsAllIffNoBool | src/standard_message_codec.c:141-151 | the values a segment counts are all that were pushed exactly when none is a bool |
| MessageBuilder.BuildMessage | src/standard_message_codec.c:95-130 | a finished message is the encoding of its tree with zeros for padding |
| MessageBuilder.Segment.PushUint8List | src/standard_message_codec.c:205-220 | appends a byte list and its length as a string's |
| MessageBuilder.BuildString | src/standard_message_codec.c:34-48 | the message of one string of any length, byte for byte, from the bytes its length skips |
| MessageBuilder.StringReadsBackIff | src/standard_message_codec.c:34-48 | the platform channel's reader reads a built string back exactly when it is shorter than 254 bytes, or 65031 bytes long with 7 and 254 in the bytes its length skips; the second reader also at length 0xFF07FF07 with 7 and 255 there |
| MessageBuilder.FirstStringLost | src/standard_message_codec.c:34-48 | 254 letters: the message starts with 254 and 0, and neither reader finds the string |
| MessageBuilder.StringReadByAccident | src/standard_message_codec.c:34-48 | 65031 letters are read back over memory that held 7 and 254, and not over zeros |
| MessageBuilder.SameBytesAsWriter | src/platform_channel.c:345-440 | the builder and the other encoder's writer over zeroed memory leave the same bytes |
| MessageBuilder.BuiltMessageReadsBack | src/standard_message_codec.c:388-482 | both readers invert the builder, whatever follows in the buffer |
| MessageBuilder.BuiltForestReadsBack | src/standard_message_codec.c:388-482 | values built back to back are read back one after the other |
| Jsmn.CountRunCounts | include/jsmn.h:106-119 | the counting pass, without a token array, returns the number of tokens the other pass produces |
| Jsmn.LexedIsBody | include/jsmn.h:193-262 | whatever is taken for a string is plain characters and valid escapes up to an unescaped quote |
| JsmnStructure.ParseStructure | include/jsmn.h:267-452 | after a successful parse starts increase, spans lie in the text and are nested or apart, containers end after a bracket of their own kind, none is open, and a token's size is the number of tokens whose owner it was when they were added, each having one earlier owner or none |
| JsmnBrackets.ParseIsChecked | include/jsmn.h:267-452 | on every text and for every number of tokens: the tokenizer accepts, with that many tokens, or refuses, with that error, just as a stack of open brackets and a count decide |
| JsonSpace.SpaceChangesPlacesOnly | include/jsmn.h:370-374 | white space put between two tokens of any text changes where tokens are and nothing else: the same kinds, sizes and lengths, or the same error |
| JsonSpace.SpaceIsNoMatter | include/jsmn.h:370-374 | nor does it change what the text decodes to |
| JsonSpace.SpreadIsNoMatter | include/jsmn.h:370-374 | the same for white space in any number of places |
| JsonSpace.SpacedPrintDecodes | include/jsmn.h:370-374 | a printed value with any white space between its tokens decodes as without: to itself with its strings as printed exactly when its tokens fit |
| JsonSpace.SpacedItem | include/jsmn.h:370-374 | white space before the item of an array |
| JsonSpace.SpacedMember | include/jsmn.h:370-374 | a line break before the second member of an object |
| JsmnParser.Parser.ParseString | include/jsmn.h:193-262 | the string scanner: a token, or which of its three failures, and where it leaves the position |
| JsmnParser.Parser.ParsePrimitive | include/jsmn.h:135-188 | the primitive scanner: a token, or which of its failures |
| JsmnParser.Parser.OpenContainer | include/jsmn.h:280-306 | an opening bracket adds an open token, counts it in its parent and makes it the parent |
| JsmnParser.Parser.CloseContainer | include/jsmn.h:307-359 | a closing bracket closes the last open token, if it is of its kind, and makes the last one still open the parent |
| JsmnParser.Parser.Turn | include/jsmn.h:274-440 | one turn of the parse loop is one step of the tokenizer, over the array |
| JsmnParser.Parser.Parse | include/jsmn.h:267-452 | the parse over a token array produces what the tokenizer says, or its error |
| JsonText.EscapeIsBody | src/platform_channel.c:509-550 | a printed string value is the body of a JSON string, whatever its characters |
| JsonMeaning.UnescapeInverts | src/platform_channel.c:509-550 | read as section 7 of RFC 8259 has escapes, what is printed for a string is the string with a tab for each quote |
| JsonMeaning.PrintedStringIsItselfIff | src/platform_channel.c:534-537 | and so the string itself exactly if it has no quote |
| JsonText.TextIsPrint | src/platform_channel.c:495-573 | a value printed in front of any text is its print and then the text |
| JsonCodec.CalcSize | src/platform_channel.c:441-494 | the calculated size is the length of the printed text |
| JsonCodec.JsonWriter.WriteValue | src/platform_channel.c:495-573 | the printer puts the text and one terminator at the cursor and leaves the rest of the buffer |
| JsonCodec.EncodeJson | src/platform_channel.c:979-985 | a buffer of one more byte than the size holds the printed text |
| JsonRoundTrip.ParsePrinted | include/jsmn.h:267-452 | the tokens of a printed value are exactly those of its tree with their spans and child counts, or the parse runs out of tokens |
| JsonRoundTrip.RebuildValue | src/platform_channel.c:723-828 | rebuilding from a value's tokens returns the value and uses exactly those tokens, whatever tokens follow |
| JsonRoundTrip.DecodePrinted | src/platform_channel.c:723-828 | a printed value decodes to itself with its strings as printed exactly when it has at most 128 tokens, and is refused otherwise; it never reads behind the list |
| JsonRoundTrip.RoundTripIff | src/platform_channel.c:723-828 | print then decode is the identity exactly when keys are string bodies, no string needs an escape and the tokens fit |
| JsonRoundTrip.QuoteAndTabPrintAlike | src/platform_channel.c:534-541 | a quote and a tab print alike and are read back as a backslash and a t |
| JsonMeaning.UnderstoodIsSameIff | src/platform_channel.c:509-550 | unescaping all strings of a value as printed gives the value exactly if none of them has a quote |
| JsonMeaning.UnderstoodRoundTripIff | src/platform_channel.c:723-828 | print, decode and then unescape is the identity exactly when keys are string bodies, no string has a quote and the tokens fit |
| JsonMeaning.WordIsRead | src/platform_channel.c:756-772 | a word that is one token, no string and no bracket, is null, true, false or a number by its first character alone |
| JsonMeaning.WordsAreTaken | src/platform_channel.c:756-772 | nope is null, and yes a number |
| JsonRoundTrip.AsReadIsIdentityIffUnescaped | src/platform_channel.c:509-550 | a value is changed by the trip exactly when a string of it holds an escaped character |
| JsonRoundTrip.CallRoundTrip | src/platform_channel.c:869-885 | a printed method call decodes to its escaped name and its arguments, if four more tokens than the arguments' fit |
| JsonRoundTrip.CallOfIff | src/platform_channel.c:873-881 | an object is a call exactly if every key is args, or is method with a string; the last of each counts |
| JsonReader.Reader.DecodeValue | src/platform_channel.c:746-828 | the token-driven reader ends and advances as the rebuilding function says, and its references show the value in the message it cuts up; it is past exactly when a token is wanted and no slot of the list is left, unused ones included, and outside exactly when the text fills its buffer and rebuilding comes to a number that ends it |
| JsonReader.DecodeMessage | src/platform_channel.c:727-828 | reading a message in place, also one that fills its buffer, answers as decoding it does, and every string of the answer is in the message when it is done; past exactly when decoding looks behind the token list, outside exactly when it writes behind the buffer |
| JsonBounds.WritesOutsideIff | src/platform_channel.c:765-772 | in a buffer of its own size a text makes it write outside exactly when its last token is a number that ends the text and the pass over the other tokens runs out |
| JsonBounds.HitsItem | src/platform_channel.c:785-797 | the element loop comes to such a number exactly if its first element does, or that is rebuilt and the rest of the loop does |
| JsonBounds.HitsMember | src/platform_channel.c:799-822 | the member loop does exactly if the key does, or it is a string and the value does, or that is rebuilt and the rest of the loop does |
| JsonBounds.LastCharacterRulesOut | include/jsmn.h:135-188 | a text that ends in a bracket, a comma, a colon or white space never does |
| JsonBounds.PrintedWritesOutsideIff | src/platform_channel.c:495-573 | of all printed values exactly the numbers do |
| JsonBounds.NumberWritesOutside | src/platform_channel.c:766-772 | a digit by itself |
| JsonBounds.LateItemWritesOutside | src/platform_channel.c:766-772 | an empty array, a colon and a digit, which becomes the array's item |
| JsonBounds.UnreadNumberStaysInside | src/platform_channel.c:744-745 | a string and a digit behind it, which is not rebuilt |
| JsonTokens.ScanIsBuild | src/platform_channel.c:746-828 | one pass over the tokens with a list of what is still wanted decides what the recursion decides: complete, refused, or out of tokens |
| JsonTokens.RunsOutIffOwes | src/platform_channel.c:785-822 | unless a token is refused, tokens run out exactly when at every point more were declared than have come |
| JsonTokens.PastListIff | src/platform_channel.c:734-752 | decoding reads behind the list exactly when the text has 128 tokens and the pass over them runs out; then more are always declared than have come |
| JsonTokens.CountRulesOutPastList | src/platform_channel.c:740-745 | a text whose counting pass does not say 128 never makes it read there |
| JsonTokens.GreedyReadsPastList | src/platform_channel.c:800-814 | an array of 125 zeros and an object whose key has no value does; with 124 zeros it is refused |
| SeatModel.CloseAll | subprojects/seatd-0.7.0/seatd/seat.c:496-501 | closing the first device until none is left ends, with the sum of references as measure, in an empty table and touches nothing else |
| SeatModel.NextId | subprojects/seatd-0.7.0/seatd/seat.c:247-264 | a new device id is positive and above every id in use |
| SeatModel.FindPath | subprojects/seatd-0.7.0/seatd/seat.c:247-264 | the first entry with a path, or none has it |
| SeatModel.FindSession | subprojects/seatd-0.7.0/seatd/seat.c:629-637 | a client of the list with the session, or none has it |
| SeatDevices.DeactivateFromTidy | subprojects/seatd-0.7.0/seatd/seat.c:323-351 | deactivating all devices keeps table and log in agreement and leaves none active if no kernel call fails |
| SeatDevices.CloseAllTidy | subprojects/seatd-0.7.0/seatd/seat.c:353-374 | closing all devices keeps table and log in agreement |
| SeatDevices.OpenTidy | subprojects/seatd-0.7.0/seatd/seat.c:213-321 | opening a device keeps table and log in agreement, and one holder if nobody else holds devices |
| SeatInvariant.ActivateVacant | subprojects/seatd-0.7.0/seatd/seat.c:405-442 | filling a vacant seat restores the ownership invariant, and always fills a seat not bound to VTs that has a client |
| SeatInvariant.OpenVacant | subprojects/seatd-0.7.0/seatd/seat.c:444-488 | opening a client on a vacant seat makes it the active one, unless its terminal does not open |
| SeatSteps.RemoveKeeps | subprojects/seatd-0.7.0/seatd/seat.c:175-195 | a client that leaves, also in the middle of a hand-over, leaves an owned seat and no trace in its pointers |
| SeatSteps.OpenSeatKeeps | subprojects/seatd-0.7.0/seatd/client.c:163-202 | opening a seat keeps the invariant, up to the caller that a failed reply leaves to be destroyed |
| SeatSteps.CloseSeatKeeps | subprojects/seatd-0.7.0/seatd/client.c:204-228 | closing a seat keeps the invariant |
| SeatSteps.OpenDeviceKeeps | subprojects/seatd-0.7.0/seatd/client.c:230-272 | opening a device, also one whose descriptor cannot be passed on, keeps the invariant |
| SeatSteps.CloseDeviceKeeps | subprojects/seatd-0.7.0/seatd/client.c:274-306 | closing a device by id keeps the invariant |
| SeatSteps.SwitchKeeps | subprojects/seatd-0.7.0/seatd/seat.c:591-649 | queueing the next session and asking the active client to let go keeps the invariant |
| SeatSteps.AckKeeps | subprojects/seatd-0.7.0/seatd/seat.c:564-589 | an acknowledged disable hands the seat on and keeps the invariant |
| SeatSteps.DestroyKeeps | subprojects/seatd-0.7.0/seatd/client.c:103-128 | a destroyed client is gone and the invariant holds again |
| SeatEffects.ActivateFills | subprojects/seatd-0.7.0/seatd/seat.c:405-442 | a vacant seat goes to the queued client if there is one; off VTs else to the first of the list; bound to VTs to a client of the current VT, exactly if there is one and its terminal opens; nothing else changes then |
| SeatEffects.OpenSeatIs | subprojects/seatd-0.7.0/seatd/client.c:163-202 | a client is taken exactly if none of the three refusals applies; then it gets its session, is first of the list and, if the seat is vacant, its terminal opens and the reply is queued, active; nobody else changes |
| SeatEffects.CloseSeatIs | subprojects/seatd-0.7.0/seatd/client.c:204-228 | who leaves keeps no device and its session; if it was active the seat is passed on, and otherwise stays |
| SeatEffects.OpenDeviceIs | subprojects/seatd-0.7.0/seatd/client.c:230-272 | an open request changes its own client only: one reference more to the device of that path, or a new active device, first, whose id is above all and none is skipped; refused or not passed on, its table is as before |
| SeatEffects.CloseDeviceIs | subprojects/seatd-0.7.0/seatd/client.c:274-306 | a close request changes its own client only: one reference less, or the entry is gone |
| SeatEffects.SwitchIs | subprojects/seatd-0.7.0/seatd/seat.c:591-649 | a switch of the active client that names another one, with none queued, queues it and disables the active one with its devices; any other changes nothing |
| SeatEffects.DisableIs | subprojects/seatd-0.7.0/seatd/seat.c:529-562 | disabling turns the devices off that can be, awaits the client and is the last entry of the log |
| SeatEffects.AckIs | subprojects/seatd-0.7.0/seatd/seat.c:564-589 | an acknowledged disable passes the seat on; who gets it back at once has all its devices back |
| SeatEffects.RemoveIs | subprojects/seatd-0.7.0/seatd/seat.c:175-195 | a client that is removed keeps no device; if it was active the seat is passed on |
| SeatEffects.DestroyIs | subprojects/seatd-0.7.0/seatd/client.c:103-128 | the same for one that is destroyed, and it is gone |
| SeatRuns.StepKeeps | subprojects/seatd-0.7.0/seatd/client.c:354-434 | every request, connection and VT signal, with its failed replies, keeps the whole invariant |
| SeatRuns.RunKeeps | subprojects/seatd-0.7.0/seatd/seat.c:123-682 | every state that any sequence of turns reaches keeps the whole invariant |
| SeatRuns.OwnershipOverRuns | subprojects/seatd-0.7.0/seatd/seat.c:123-195 | in every reachable state the active client is exactly the one client in ACTIVE or PENDING_DISABLE, a queued one is another waiting member while the active one is asked to let go, and pointers and lists agree |
| SeatRuns.NeverIdleOverRuns | subprojects/seatd-0.7.0/seatd/seat.c:405-442 | a seat not bound to VTs with a client has an active one, between any two requests of any run |
| SeatFates.QueuedGetsTheSeat | subprojects/seatd-0.7.0/seatd/seat.c:412-416 | in every reachable state and for every next turn: a queued client that has not left is active and no longer queued as soon as the active client has acknowledged, closed or gone; until then it stays queued |
| SeatFates.LatestGetsTheSeat | subprojects/seatd-0.7.0/seatd/seat.c:417-437 | off VTs and without a queued client, the one active then is the one with the highest session of those left, who opened the seat last; or there is nobody |
| SeatFates.VtGetsTheSeat | subprojects/seatd-0.7.0/seatd/seat.c:420-434 | bound to VTs, whoever is active after the seat became free is of the current VT and its terminal opened; if somebody of that VT is there and terminals open, somebody is active |
| SeatFates.ReleaseOverRuns | subprojects/seatd-0.7.0/seatd/seat.c:666-682 | after the release signal no VT is current and no client is Active; the one that was has Disable as last entry of the log and its devices are off where the kernel let go; if drops succeed no device of any client is active |
| SeatFates.AcquireOverRuns | subprojects/seatd-0.7.0/seatd/seat.c:651-664 | after the acquire signal the VT is the one read; an owned seat stays with its owner, and a vacant one goes to a client of that VT exactly if there is one and its terminal opens |
| SeatFates.DrmOverRuns | subprojects/seatd-0.7.0/seatd/seat.c:376-403 | between any two requests of any run every DRM device of an Active client is active |
| SeatFates.FatesOverRuns | subprojects/seatd-0.7.0/seatd/seat.c:444-488 | what one turn makes of every client of a reachable state, its own request or not; who becomes Active has all its devices back, with a Reactivated in the log for each DRM device that was not active |
| SeatFates.DroppedIff | subprojects/seatd-0.7.0/seatd/client.c:354-434 | a client stays exactly if its request was answered and the answer went out, or the turn was not its own |
| SeatFates.ComesOverRuns | subprojects/seatd-0.7.0/seatd/seat.c:123-173 | in every reachable state, who is admitted comes in as SeatEffects.OpenSeatIs has it |
| SeatRuns.HandOverOverRuns | subprojects/seatd-0.7.0/seatd/seat.c:444-589 | at every point of every run, inside hand-overs too: enables and disables alternate, nobody is enabled while a disabled client is awaited, VT-bound enables are on the client's own VT, no evdev device comes back |
| SeatRuns.ExclusiveOverRuns | subprojects/seatd-0.7.0/seatd/seat.c:323-403 | if every drop-master and revoke succeeds, two clients never hold active devices at one point, and between requests the holder is the active client in ACTIVE |
| SeatRuns.AccountsOverRuns | subprojects/seatd-0.7.0/seatd/seat.c:247-374 | device ids are distinct and positive, paths distinct, at most 128 entries, and reference counts are opens minus closes and positive |
| SeatSessions.SessionsOverRuns | subprojects/seatd-0.7.0/seatd/seat.c:164-167 | on a seat not bound to VTs no two clients ever have the same session, and sessions count from 0 |
| SeatSessions.SwitchReachesIff | subprojects/seatd-0.7.0/seatd/seat.c:604-648 | in every reachable state, a switch request of the active client queues a waiting one exactly when it names its session and that is not 0 |
| SeatSessions.FirstIsNeverSwitchedTo | subprojects/seatd-0.7.0/seatd/seat.c:591-612 | after two clients opened the seat and the first let go for the second, no switch request of the second queues the first |
| Seatd.Daemon.Serve | subprojects/seatd-0.7.0/seatd/client.c:354-434 | one turn of the daemon's code over clients updated in place is one step of the state machine |
| Seatd.Daemon.OpenDevice | subprojects/seatd-0.7.0/seatd/seat.c:213-321 | the table scan, the new reference and the new entry, as the state machine has them |
| Seatd.Daemon.CloseDevice | subprojects/seatd-0.7.0/seatd/seat.c:353-374 | one reference less, or deactivation and removal |
| Seatd.Daemon.Scan | subprojects/seatd-0.7.0/seatd/seat.c:247-264 | one pass over the table finds the path, or counts the entries and finds the next id |
| Seatd.Daemon.Activate | subprojects/seatd-0.7.0/seatd/seat.c:405-442 | the choice of the next owner, over pointers |
| Seatd.Daemon.AddClient | subprojects/seatd-0.7.0/seatd/seat.c:123-173 | the three refusals and the session a client gets |
| Seatd.Daemon.RemoveClient | subprojects/seatd-0.7.0/seatd/seat.c:175-195 | unqueues, closes and unseats a client |
| Seatd.Daemon.CloseClient | subprojects/seatd-0.7.0/seatd/seat.c:490-527 | gives up the seat and activates another client |
| Seatd.Daemon.DisableClient | subprojects/seatd-0.7.0/seatd/seat.c:529-562 | deactivates all devices and waits for the client |
| Seatd.Daemon.AckDisable | subprojects/seatd-0.7.0/seatd/seat.c:564-589 | the acknowledgement and the hand-over after it |
| Seatd.Daemon.SetNextSession | subprojects/seatd-0.7.0/seatd/seat.c:591-649 | the switch request's refusals and its effect |
| Seatd.Daemon.VtActivate | subprojects/seatd-0.7.0/seatd/seat.c:651-664 | a VT coming back activates a client of it |
| Seatd.Daemon.VtRelease | subprojects/seatd-0.7.0/seatd/seat.c:666-682 | a VT going away disables the active client |
| Seatd.Daemon.HandleOpenSeat | subprojects/seatd-0.7.0/seatd/client.c:163-202 | relinks the client into the seat's list and opens it |
| Seatd.Daemon.HandleCloseSeat | subprojects/seatd-0.7.0/seatd/client.c:204-228 | relinks the client into the idle list after removal |
| Seatd.Daemon.HandleOpenDevice | subprojects/seatd-0.7.0/seatd/client.c:230-272 | opens a device and closes it again when its descriptor cannot be passed on |
| Seatd.Daemon.Destroy | subprojects/seatd-0.7.0/seatd/client.c:103-128 | unlinks a client, removes it from its seat and forgets it |
| Connection.SlotOfWrapped | subprojects/seatd-0.7.0/common/connection.c:11-13 | a counter points at the same slot before and after wrapping at 32 bits |
| Connection.WrappedDifference | subprojects/seatd-0.7.0/common/connection.c:15-17 | the difference of wrapped counters is the occupancy |
| Connection.Laid | subprojects/seatd-0.7.0/common/connection.c:92-109 | bytes laid down in one piece or two are in their slots and what was not overwritten still is |
| Connection.Ring.Put | subprojects/seatd-0.7.0/common/connection.c:92-109 | appends to the ring's contents, or refuses more than a ring |
| Connection.Ring.Copy | subprojects/seatd-0.7.0/common/connection.c:78-88 | copies the oldest bytes out, across the end of the array |
| Connection.Ring.GetIov | subprojects/seatd-0.7.0/common/connection.c:31-49 | the one or two pieces that hold exactly the contents, in order |
| Connection.Ring.PutIov | subprojects/seatd-0.7.0/common/connection.c:55-73 | the one or two pieces that are exactly the free space, from the head on |
| Connection.Conn.Flush | subprojects/seatd-0.7.0/common/connection.c:215-250 | whatever is accepted and however it fails, what went out and what is left are what was queued, and how much went out is what the sends took |
| Connection.FlushEndsIff | subprojects/seatd-0.7.0/common/connection.c:215-250 | what goes out is what the sends before the first failure take, at most all; the flush is done exactly if that is all, and failed exactly if it is not and that send broke |
| Connection.Conn.Put | subprojects/seatd-0.7.0/common/connection.c:252-266 | queues bytes that fit and sends nothing; bytes that do not fit are queued exactly when everything before them goes out and they fit an empty ring; all of them or none |
| Connection.Conn.Read | subprojects/seatd-0.7.0/common/connection.c:179-213 | receives into the free space in order; overflows exactly on a full ring |
| Connection.Conn.Get | subprojects/seatd-0.7.0/common/connection.c:277-285 | takes the oldest bytes exactly when there are enough |
| Connection.Conn.GetThenRestore | subprojects/seatd-0.7.0/common/connection.c:306-308 | a get followed at once by a restore changes nothing |
| Connection.Link.Act | subprojects/seatd-0.7.0/common/connection.c:179-308 | each put, flush, read, get or restore changes what was put, queued, in flight, received and got exactly as its step says, and what was got is a prefix of what was put |
| Connection.Link.RunAll | subprojects/seatd-0.7.0/common/connection.c:179-308 | any run of them ends where its steps lead, with what was got a prefix of what was put |
| Connection.StepKeeps | subprojects/seatd-0.7.0/common/connection.c:179-308 | with any partial sends and receives, bytes put are bytes got, then in the ring, on the wire and in the other ring; nothing put or got is taken back, and no byte is queued that a flush would not send |
| Connection.RunKeeps | subprojects/seatd-0.7.0/common/connection.c:179-308 | the same over any run of puts, flushes, reads, gets and restores |
| Connection.AllCanBeGot | subprojects/seatd-0.7.0/common/connection.c:179-308 | from every such state a run of gets, reads and flushes hands out everything that was put |
| Framing.FramesSplit | subprojects/seatd-0.7.0/seatd/client.c:502-511 | handling what came first and then the rest is handling it all at once |
| Framing.ChunkingDoesNotMatter | subprojects/seatd-0.7.0/seatd/client.c:485-512 | the requests handled do not depend on how the bytes were split into reads |
| Framing.FullRingStaysFullIff | subprojects/seatd-0.7.0/seatd/client.c:502-511 | a full ring yields no request exactly when its header declares more than 252 payload bytes |
| Framing.RingFullForGood | subprojects/seatd-0.7.0/seatd/client.c:502-511 | a ping declaring 253 bytes, with 252 of them there |
| Framing.LeftoverFits | subprojects/seatd-0.7.0/seatd/client.c:502-511 | with headers of at most 252 payload bytes the leftover never fills the ring |
| Framing.FramesInvertEncode | subprojects/seatd-0.7.0/include/protocol.h:31-47 | requests sent one after the other are the requests handled, byte for byte; and what their handlers read is what was meant, whatever lies in memory, exactly when every path was sent with a NUL |
| Framing.OnTheWire | subprojects/seatd-0.7.0/include/protocol.h:31-47 | each request byte by byte |
| Framing.AcceptedIff | subprojects/seatd-0.7.0/seatd/client.c:354-434 | a message is taken for a request exactly if it has its opcode and begins with what a client sends for it; without fields it must be empty |
| Framing.SurplusIsTheNextHeader | subprojects/seatd-0.7.0/seatd/client.c:373-408 | if a message is longer than that, the rest of it stays in the ring and is taken for the next header |
| Framing.HeardIffTerminated | subprojects/seatd-0.7.0/seatd/client.c:374-385 | what handlers read of any requests depends on nothing but their bytes exactly when every path holds a NUL |
| Framing.PathRunsOn | subprojects/seatd-0.7.0/seatd/client.c:374-385 | a path without a NUL is read on into what lies behind it, and one that fills the buffer past the buffer |
| Framing.PathWithoutEnd | subprojects/seatd-0.7.0/seatd/client.c:374-385 | a path of one letter is read as that letter or with another one behind it |
| Framing.Session.TakeBody | subprojects/seatd-0.7.0/seatd/client.c:354-434 | every handler gets its fields out of the ring without a get failing, and none past its own message; a path as a C string, with whatever lies in memory behind it |
| Framing.Session.HandlePending | subprojects/seatd-0.7.0/seatd/client.c:502-511 | the get, compare and restore loop handles exactly the whole messages and puts an incomplete header back |
| Framing.Session.ReadAndHandle | subprojects/seatd-0.7.0/seatd/client.c:485-512 | after a read the requests handled are still a function of all bytes received; the ring is full before a read only behind a header declaring more than 252 bytes |
| Framing.Session.HandleConnection | subprojects/seatd-0.7.0/seatd/client.c:462-519 | one readiness event: the client is dropped exactly on an error, a hangup, a failed flush, a failed or empty read, a full ring, or a request that is refused; requests are handled only if it reads |
| LinkedList.Insert | subprojects/seatd-0.7.0/common/linked_list.c:12-20 | the circle with the new link right after the list itself |
| LinkedList.Remove | subprojects/seatd-0.7.0/common/linked_list.c:22-29 | the circle without the link, which has null neighbours again |
| LinkedList.Take | subprojects/seatd-0.7.0/common/linked_list.c:36-46 | everything of one circle at the front of another, and an empty circle |
| LinkedList.Skipping | subprojects/seatd-0.7.0/common/linked_list.c:22-29 | the remaining links form a circle |
| LinkedList.SplicedPrev | subprojects/seatd-0.7.0/common/linked_list.c:36-46 | the backward links of two spliced circles |
| LinkedList.SplicedNext | subprojects/seatd-0.7.0/common/linked_list.c:36-46 | the forward links of two spliced circles |
| Poller.LiveWithout | subprojects/seatd-0.7.0/seatd/poller.c:136-143 | marking one source leaves the other live ones, in order |
| Poller.WalkOn | subprojects/seatd-0.7.0/seatd/poller.c:248-262 | each step of the walk keeps a live source in order or frees a destroyed one |
| Poller.ExpectedIsReported | subprojects/seatd-0.7.0/seatd/poller.c:295-307 | with the table in list order, what slots report is what poll answered at each source's position |
| Poller.Poller.AddFd | subprojects/seatd-0.7.0/seatd/poller.c:118-134 | a new source is first in the list, has no slot and is counted |
| Poller.Poller.Destroy | subprojects/seatd-0.7.0/seatd/poller.c:136-143 | a destroyed source stays linked, marked and no longer counted |
| Poller.Poller.Update | subprojects/seatd-0.7.0/seatd/poller.c:145-151 | a new mask, and a table to be made anew |
| Poller.Poller.Regenerate | subprojects/seatd-0.7.0/seatd/poller.c:231-263 | live sources, and no others, have slots 1 to n-1 in list order with their own descriptor and mask, the count is right, and exactly the destroyed ones were freed |
| Poller.Poller.Callback | subprojects/seatd-0.7.0/seatd/poller.c:118-151 | whatever owners add, change and destroy meanwhile, listed sources stay listed behind the new ones and none is freed |
| Poller.Poller.Dispatch | subprojects/seatd-0.7.0/seatd/poller.c:295-307 | each listed source with something to report is called once, in order, with its own slot's descriptor and events, unless it was destroyed before; new ones are not called |
| Poller.Poller.Poll | subprojects/seatd-0.7.0/seatd/poller.c:310-327 | one turn of the loop calls each live source back with what poll answered for it; nothing is called after it was destroyed |
| TaskQueue.WakesIff | src/task.c:27-52 | what one schedule arranges is at once when the task is due, else strictly after its target and at most 1 ms late, exactly if the earliest target is not 65535 and the wait fits an int of milliseconds |
| TaskQueue.ArmedRingsIff | src/task.c:27-52 | after a schedule the queue is woken exactly if the event was pending, or the earliest target is one that can be woken for, or it is 65535 and the timer that was set is just after it |
| TaskQueue.EarliestIsLeast | src/task.c:28-35 | the target the loop finds is a least one |
| TaskQueue.TimerFindsWork | src/task.c:43-50 | when a timer set for the earliest task expires, a task is due |
| TaskQueue.DueOrKept | src/task.c:67-88 | each task of a pass is either run, past its target, or kept |
| TaskQueue.PassConserves | src/task.c:54-94 | with tasks posted meanwhile, a pass neither loses nor repeats a task and runs none at or before its target |
| TaskQueue.Queue.Schedule | src/task.c:27-52 | the event and the timer after a schedule, and exactly when the queue is then woken |
| TaskQueue.Queue.Process | src/task.c:54-99 | due tasks run in queue order, the others go back in front of what was posted meanwhile, and exactly when the queue is woken again, by the alarm that those posts leave |
| TaskQueue.Queue.PostTask | src/task.c:125-141 | a posted task is queued first, and exactly when the queue is woken |
| TaskQueue.RunAll | src/task.c:101-141 | any run of posts, events and timers ends where its steps lead, with every task posted from outside accounted for, and exactly when the queue is woken then |
| TaskQueue.RunsConserve | src/task.c:54-141 | over any such run every posted task is queued or was run once, past its target; no run is taken back and every post counts |
| TaskQueue.RunsWakeIff | src/task.c:27-141 | after each action of any run the queue is woken exactly if the alarm that its last schedule found was signalled, or its earliest target can be woken for, or is 65535 and a timer left over is just after it |
| TaskQueue.PostedButNeverWoken | src/task.c:37-37 | a task for time 65535 posted to an empty queue at time 0: no event, no timer |
| TaskQueue.WokenByLeftoverTimer | src/task.c:37-50 | posted after a task for time 70000 it is woken, by the timer set for that one |
| RendererPages.PlacesDisjoint | src/renderer.c:45-218 | live textures are exactly those drawn, waiting and shown, each in one place |
| RendererPages.NotWaiting | src/renderer.c:45-218 | textures that are live and cannot be handed out are those of the last two frames |
| RendererPages.Renderer.CreateBackingStore | src/renderer.c:45-130 | a store has the requested size, is in no other use and not in the scene, and is new exactly when the page has no unused one of the size |
| RendererPages.Renderer.PresentLayers | src/renderer.c:136-218 | afterwards the live textures are exactly the stores of the last two frames, by number too; the new scene is safe from deletion and redrawing exactly when its layers use this frame's stores; the old scene's textures still live |
| RendererPages.Renderer.RunAll | src/renderer.c:45-218 | over any run of stores and presents of this frame's stores the scene stays safe, and scene, stores and pages are what the steps make of them |
| RendererPages.FrameTakes | src/renderer.c:45-106 | a frame's stores have the sizes asked for, and exactly those sizes that do not wait on the page, counted with repetition, take a new texture |
| RendererPages.DrawnOverWhileShown | src/renderer.c:136-218 | one store presented in two frames running is handed out in the third while it is shown |
| RendererPages.DeletedWhileShown | src/renderer.c:192-196 | or is deleted while it is shown, if that frame takes none of its size |
| RoundedClip.InsetIsLeastInside | src/renderer.c:480-497 | the inset is the least integer between 0 and the radius whose pixel edge is in the ellipse |
| RoundedClip.InsetCuts | src/renderer.c:480-497 | for a corner with any radii, the inset cuts exactly the pixels the corner cuts |
| RoundedClip.ClampedIsNearest | src/renderer.c:540-550 | each radius becomes the nearest one between 0 and half the side; radii are kept as given exactly if they fit |
| RoundedClip.TopRow | src/renderer.c:561-580 | a row of the top band is exactly the rounded box in that row, and its width is not negative |
| RoundedClip.BottomRow | src/renderer.c:582-602 | the same for the bottom band |
| RoundedClip.MiddleRows | src/renderer.c:555-559 | the middle band is the full width of the rounded box |
| RoundedClip.RoundedRegion | src/renderer.c:527-603 | the region is exactly the pixels of the box that no clamped corner cuts off, and no two of its rectangles share a row |
| RoundedClip.RegionIsSymmetric | src/renderer.c:527-603 | equal radii, as they are given, at top and bottom, or left and right, make the region that is returned its own reflection |

## Left out

- Seat devices are values in their client's table, not objects of their own: that two pointers could name one device is not modelled. File descriptors, credentials, logging and the VT and DRM calls themselves are answers in the environment.
- There is one seat, as the daemon creates one; looking a seat up by name is not modelled. An empty device path, which an assertion stops the daemon on (subprojects/seatd-0.7.0/seatd/seat.c:216), is left out.
- SeatModel.HandleCloseDevice: closing device id 0 fails an assertion and stops the daemon (subprojects/seatd-0.7.0/seatd/seat.c:200); the model answers it with an error reply, as it does any id that is not in the table, and says nothing about a daemon that has stopped.
- The assertion at subprojects/seatd-0.7.0/seatd/seat.c:541 assigns where it means to compare; it assigns what is already there and is left out.
- Seatd.Daemon.FindSession: walks the list front to back as the source does; the source's order among equal sessions is that of the list.
- The libseat client, the logind and noop backends and seatd-launch; handlers of `Framing.Session` answer success or failure only, so the replies they queue are not part of it.
- Poll's signal pipe and the list of signal sources are left out of `Poller`; freeing is a ghost set that sources enter.
- `RendererPages` tells textures apart by numbers that are never reused; frame buffers, GL errors and fences are left out, and so are the offset and size of a layer.
- RoundedClip.RoundedRegion: over real numbers with an exact square root and unbounded coordinates, not doubles and 32-bit coordinates.
- TaskQueue.Queue.Schedule: the timer counts from the clock reading the schedule used, and a timer set to zero or less is disarmed.
- Memory allocation fails only where an input says so (device table, sources, the poll table); elsewhere it succeeds.
- StdCodec.WriteCursor.WriteValue: lengths of 2^31 and more do not survive the C int they travel through and are left out.
- StdReader.ReadCursor.ReadValue: after a child was to be stored outside its container nothing is said; and loop counters are C ints, so a container that holds 2^31 values is left out.
- MessageBuilder.PushTree: lengths below 254 only, because longer ones are written over the start of the message (what one push of any length does is `MessageBuilder.Segment.PushString` and its neighbours); the typed numeric lists, which advance by elements instead of bytes, are left out.
- JsonCodec.JsonWriter.WriteValue: numbers are the text `%g` prints for them, kept as that text; not-a-number and infinities are left out.
- JSON method-call responses (src/platform_channel.c:886-906) are not modelled; calls are.
- JsonReader.DecodeMessage: after a token was looked for behind the list, or a terminator was about to be written behind the buffer, nothing is said.
- MessageBuilder.StringReadsBackIff: is about a message of one string; a longer string inside a tree or behind other values overwrites the start of what was built, and what readers then make of it is not stated.
- MessageBuilder.Segment.Finish: the counts of values and of open segments are 32-bit in the source and unbounded here.
- Framing.Session.TakeBody: what lies in memory behind a path is a sequence; if it holds no NUL either, what is read after its end is not modelled.
- Connection.Conn.Flush: the answers of the sends are a list, and where it ends nothing more is taken; a socket that takes 0 bytes for ever, on which the source's loop does not end, is not modelled.
- `src/surface.c`, `src/input.c`, `src/output.c`, `src/cursor.c`, `src/messages.c`, `src/handle_map.cc`, `src/plugin_registry.c`, `src/text_input.c`, value equality in `src/platform_channel.c`, and everything in Dart.
