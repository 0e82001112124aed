# Model of mod_janus

mod_janus is a FreeSWITCH endpoint module that bridges calls into Janus audio rooms.  This project
models its hard parts and proves what they are there for.

* **The JSON codec** (`cJSON.c`).  A pure layer says what text a tree is printed as (`Json.Render`),
  what a text is read as (`ParseSpec.ParseText`), what minifying leaves (`Minify.Minified`) and what
  value a tree denotes (`Compare.Denote`).  An imperative layer (`ParseBuffer`, `PrintBuffer`, the
  in-place minifier, the linked child list, the duplicate) is proved against it.  On top of both stand
  the round trip of printer and parser, the exact space bound of the printer, the bound on decoded
  strings, the two laws of the minifier, the comparison as a decision procedure, and the list operations.
* **Answer gating and trickle ICE** (`mod_janus.c`, `api.c`).  A transition system over the event
  thread and the media thread, with one step per locked section and one per unlocked read; the class
  `PrivateObject` runs the locked sections.
* **The WebSocket multiplexer** (`janus_ws.c`).  A context class proved against functions over a script
  of poll outcomes, and laws over whole runs with requests made from inside callbacks.
* **The pod registry and the server threads** (`servers.c`, `mod_janus.c`).  A refresh of the name table,
  and a transition system over any number of servers, threads per server, refreshes, console commands and
  calls, with one step per locked section and one per unlocked test.

Files follow the components: `Bytes`, `Numbers`, `Unicode`, `Literals`, `Json`, `ParseSpec`, `Parser`,
`Printer`, `RoundTrip`, `Reparse`, `Spelling`, `NumberGrammar`, `Layout`, `Texts` (the codec against the
grammar, with literals and tables), `Minify`, `MinifyLaws`, `MinifyMeaning`, `MinifyParts`, `Compare`,
`Equality`, `ChildList`, `Duplicate`; `AnswerGate`, `AnswerTiming`, `AnswerCauses`, `Trickle`; `WsMux`,
`WsLaws`, `WsReplies`, `WsContext`; `Registry`, `ServerThread` (the steps), `ServerRounds` (whole turns),
`ServerLaws`, `ServerRaces`, `ServerSequels`, `ServerTables`, `ServerEntries`, `ServerCauses`.
`dafny verify dfyconfig.toml` checks the whole project.

## Results that differ from what one might expect

* A recursive duplicate compares equal to its source if and only if the source denotes something
  (`Duplicate.DuplicateComparesEqual`): two members of one name with different values break it
  (`Compare.RepeatedNameDiffers`).
* Events arrive at the callbacks in order of arrival on every run if and only if no callback waits for a
  reply (`WsLaws.OrderIsArrivalOrderIff`, with the overtaking run in `WsLaws.Overtaking`).
* `proceed` runs twice if and only if a body with inline candidates is followed by a completion
  (`Trickle.ProceedsTwiceIff`), and overruns its buffer if and only if body and candidates are both there
  and together reach its size (`Trickle.OverrunIff`).
* The minifier steps over the terminator of its text if and only if a literal or a block comment is left
  open (`Minify.MinifyInPlace`); no text the parser accepts does (`MinifyMeaning.MinifyStaysInside`).
* A server can have two threads and two session entries (`ServerRaces.TwoEntriesRun`): a refresh tests the
  enabled flag without its lock and then forces the start. `ServerRaces.SecondEntryIff` says exactly when a
  start can do that by the server's own steps, `ServerSequels.SecondEntryLaterIff` whatever else follows,
  `ServerRaces.OneThreadIff` when a server never has two threads; the table laws of
  `ServerLaws` hold for runs whose starts are orderly.
* A server can evict itself after a refresh has just seen it (`ServerCauses.EvictedAfterSighting`) and with a
  call on it (`ServerCauses.EvictedUnderCall`): decision and flag are two steps.
  `ServerCauses.CauseStandsIff` says exactly when the cause still stands.
* The name table is cleaned by name and not by server, so a running server that was never evicted can lose
  its name (`ServerTables.SuccessorLosesItsName`); `ServerTables.NameLeaves` says exactly when a name goes.
* A released answer can be left to nobody, if the one call of `answered` finds the server out of its table
  (`AnswerTiming.LosingRun`, `AnswerGate.LosesIff`); the first frame past the deadline still answers it
  (`AnswerGate.DeadlineAnswers`).
* The leg's own entry in a participant list can open the gate, if the report of its id found no server
  (`AnswerTiming.ReleasedByOurselves`) or a second join brought a second id (`AnswerTiming.OpenedBySecondId`);
  `AnswerGate.OwnEntryOpensIff` says exactly when.
* A text with a number too large for a double does not come back: the number is printed as `null`
  (`Reparse.InfinityComesBackAsNull`). Every other accepted text does (`Reparse.ReparsedIsTheSame`).
* README.md of the repository (line 145) has the answer timeout start when the leg is otherwise answerable.
  The code starts it in `joined` (mod_janus.c:156), so a late request is answered at once
  (`AnswerTiming.AnsweredAtOnce`); `AnswerTiming.EarlyAnswerIff` says exactly when the documented time can be
  undercut.

## Model

| member | source | states |
|---|---|---|
| Numbers.CopyNumber | cJSON.c:266-307 | the loop of `parse_number` copies exactly the longest run of number bytes, at most 63, and terminates it inside its 64-byte buffer |
| Numbers.NumberSpanExact | cJSON.c:281-307 | that run is the lexeme itself when number bytes end behind it |
| Numbers.DecimalRoundTrip | api.c:418-420 | reading back the decimal text of a number gives the number |
| Numbers.IntTextIsValid | cJSON.c:474-537 | every integer below 10^15 in absolute value prints as a lexeme the reader consumes entirely |
| NumberGrammar.TakenIsNumber | cJSON.c:308-326 | what `strtod` takes of a text is a number of its grammar: optional sign, digits with an optional point, at least one digit, and an exponent only with digits |
| NumberGrammar.LongestIsTaken | cJSON.c:308-326 | and it is the longest such prefix |
| NumberGrammar.JsonNumberIsRead | cJSON.c:266-327 | every number of the JSON grammar (section 6 of RFC 8259) of up to 63 bytes is read whole, in front of anything but a number byte |
| NumberGrammar.LongNumberIsCut | cJSON.c:266-327 | of a run of more than 63 digits exactly the first 63 are read |
| Unicode.ParseHex4 | cJSON.c:540-574 | the value of four digits found in the tables of either case, and 0 exactly as soon as a byte is in neither table |
| Unicode.UnitIsRead | cJSON.c:540-574 | four bytes are read as the unit they spell, each digit in either case, and any byte outside the two tables makes the value 0 |
| Spelling.LiteralIsRead | cJSON.c:698-802 | a string of any pieces of section 7 of RFC 8259, plain bytes, two-byte escapes by table, `\u` escapes with digits of either case, single or as a surrogate pair, is read as the bytes the pieces mean, up to its closing quote |
| Spelling.OtherLetterFails | cJSON.c:745-786 | an escape with any other letter is refused at its backslash |
| Spelling.EscapesAre | cJSON.c:897-943 | how each byte is printed: seven by their letter, the others below 32 by four lower-case digits, and the rest, the slash included, as it is |
| Spelling.Utf8Samples | cJSON.c:650-686 | the examples of section 7 of RFC 3629 |
| Unicode.LowTenBits | cJSON.c:627-631 | the code's formula on the low ten bits of both halves is the pair arithmetic of section 2.2 of RFC 2781 |
| Unicode.Utf8IsUnique | cJSON.c:650-686 | the emitted bytes are the only sequence that a strict UTF-8 decoder (section 3 of RFC 3629) reads as the code point |
| Unicode.DecodeInvertsEncode | cJSON.c:650-686 | a strict decoder reads every encoded scalar value back |
| Unicode.EncodeInvertsDecode | cJSON.c:650-686 | whatever the strict decoder accepts is the encoding of its result, so no overlong form is ever emitted |
| Unicode.LiteralRoundTrip | cJSON.c:577-695 | the escape text of every scalar value, single or pair, is read as that value and its UTF-8 bytes |
| Unicode.AcceptedIsUtf16 | cJSON.c:577-695 | a literal with hex digits is accepted exactly if it is UTF-16 (section 2.2 of RFC 2781): lone surrogates are refused, and the code point is the one encoded |
| Unicode.StoreLiteral | cJSON.c:577-695 | the in-place routine writes exactly the bytes of the specification and touches nothing else |
| Literals.CountEscapes | cJSON.c:854-880 | the first pass of the printer counts the extra bytes of escaping exactly |
| Literals.CopyEscaped | cJSON.c:897-943 | the second pass writes the escaped string into exactly that room |
| Literals.FindEnd | cJSON.c:711-737 | the first pass of `parse_string` finds the closing quote, if there is one in the buffer, and counts the backslashes it skips |
| Literals.UnescapeFits | cJSON.c:711-802 | amortised over aligned and misaligned positions, the second pass never produces more than the first pass allowed for, on every input |
| Literals.AdvanceEscape | cJSON.c:745-786 | one escape, even one that swallows bytes the first pass counted differently, pays for its output and leaves the budget valid |
| Literals.DecodeInto | cJSON.c:739-802 | the in-place second pass writes only inside the allocated buffer and stores exactly the decoded string |
| Literals.CloseQuoteOfEscape | cJSON.c:711-737 | an escaped string is ended by the quote the printer put behind it and by no earlier one |
| Literals.UnescapeOfEscape | cJSON.c:739-802 | decoding an escaped string gives the string back |
| Json.RenderNulFree | cJSON.c:1267-1338 | printed text contains no NUL byte, so it is one C string |
| ParseSpec.ParseText | cJSON.c:1000-1077 | the end and the reported error position always lie within the text or on its terminator |
| ParseSpec.ParseValue | cJSON.c:1212-1265 | a parsed value ends beyond its start and inside the buffer, and a failed cursor stays inside it |
| RoundTrip.StringRoundTrip | cJSON.c:698-946 | a printed string is read back, consuming exactly its bytes |
| RoundTrip.NumberRoundTrip | cJSON.c:266-327 | a printed number followed by anything but a number byte is read back, consuming exactly its bytes |
| RoundTrip.ArrayRoundTrip | cJSON.c:1341-1494 | a printed array at any place and depth is read back, or refused if it nests too deep |
| RoundTrip.ObjectRoundTrip | cJSON.c:1497-1717 | the same for objects, with tabs, line ends and colons of both formats |
| RoundTrip.ValueRoundTrip | cJSON.c:1212-1717 | for every tree without Raw, null or invalid parts, in both formats and before any delimiter: the parser returns the tree and consumes exactly its bytes if the nesting fits 1000, and fails if it does not |
| RoundTrip.DocumentRoundTrip | cJSON.c:1000-1209 | the same for whole documents, with and without the required terminator |
| Layout.MemberOnItsLine | cJSON.c:1606-1717 | in formatted text every member stands behind a line end and one tab per level it is in, and its name is followed by a colon and a tab |
| Layout.BraceOnItsLine | cJSON.c:1698-1717 | the closing brace stands on a line of its own behind one tab per level of the object |
| Layout.SampleText | cJSON.c:1267-1717 | an object with an array and an empty object in full, in both formats |
| Layout.Words | cJSON.c:1267-1338 | the three words in full, and a string without text as two quotes |
| Texts.ValueInText | cJSON.c:1000-1077 | a value is read behind an optional byte order mark and white space; what follows is left alone, or, when the text is to end, refused at the first byte that is no white space |
| Texts.NoValueInText | cJSON.c:1000-1077 | a text that starts with a byte no value starts with, or holds none, is refused at that place |
| Texts.MarkAlone | cJSON.c:984-997 | a text that is only a byte order mark is refused at its start |
| Texts.OpenString | cJSON.c:711-737 | a string that is not closed is refused right behind its quote |
| Texts.OpenObject | cJSON.c:1497-1603 | an object that is only begun is refused at the end of the text |
| ParseSpec.MemberFails | cJSON.c:1530-1579 | a member fails one place behind the missing quote of its name, at the missing colon, or where its value does |
| Reparse.ValueIsSound | cJSON.c:1212-1265 | whatever the parser returns has NUL-free strings and names, numbers `strtod` reads whole, no Raw or invalid item, and no more levels than the limit left |
| Reparse.StrtodAgain | cJSON.c:308-326 | the part of a text `strtod` takes it takes again as a whole |
| Reparse.ReparsedIsTheSame | cJSON.c:474-1209 | for every accepted text the items the parser leaves are printed, in either format, as a text it accepts to its end; reading that gives the same items if and only if every number among them is finite, given that the text of a finite number that was read is read as that number |
| Reparse.InfinityComesBackAsNull | cJSON.c:485-491 | `1e400` is accepted, printed as `null` and comes back as a null item |
| Parser.ParseBuffer.SkipUtf8Bom | cJSON.c:984-997 | moves past a byte order mark exactly if one stands there |
| Parser.ParseBuffer.SkipWhitespace | cJSON.c:963-981 | stops at the first byte above 32 or on the terminator, stepping back if it ran over the end |
| Parser.ParseBuffer.ParseNumberItem | cJSON.c:266-327 | agrees with the specification in result and cursor |
| Parser.ParseBuffer.ParseStringItem | cJSON.c:698-824 | agrees with the specification in result and cursor, failure included |
| Parser.ParseBuffer.ParseValueItem | cJSON.c:1212-1265 | agrees with the specification; on success the depth is restored, and it never passes 1000 |
| Parser.ParseBuffer.ParseArrayItem | cJSON.c:1341-1432 | the same with the step back in front of the first element |
| Parser.ParseBuffer.ParseElements | cJSON.c:1376-1407 | the loop over elements reads on exactly at commas |
| Parser.ParseBuffer.ParseObjectItem | cJSON.c:1497-1603 | the same for objects |
| Parser.ParseBuffer.ParseMemberItem | cJSON.c:1530-1579 | one round of the member loop: name, colon, value and the white space around them |
| Parser.ParseWithOpts | cJSON.c:1000-1077 | the imperative parser computes `ParseText`: same tree, same end, same error position; a null text is refused |
| Printer.PrintBuffer.Ensure | cJSON.c:373-458 | grants room exactly if it fits the limit, keeps what was written, and a fixed buffer is never replaced |
| Printer.PrintBuffer.UpdateOffset | cJSON.c:461-471 | moves the write position to the end of the string the buffer holds, wherever it stood before |
| Printer.PrintBuffer.PrintString | cJSON.c:827-946 | succeeds exactly if the quoted text and two bytes fit, and then holds it after what was there |
| Printer.PrintBuffer.StoreQuoted | cJSON.c:883-945 | both ways of storing a string, in one piece and byte by byte, store the same bytes |
| Printer.PrintBuffer.PrintNumber | cJSON.c:474-537 | appends the lexeme and moves past it |
| Printer.PrintBuffer.PrintValue | cJSON.c:1267-1338 | succeeds exactly if the tree is printable and its text and two bytes fit, and then holds the text |
| Printer.PrintBuffer.PrintArray | cJSON.c:1435-1494 | the same for arrays |
| Printer.PrintBuffer.PrintObject | cJSON.c:1606-1717 | the same for objects; the depth comes back |
| Printer.PrintBuffer.PrintMembers | cJSON.c:1633-1697 | the member loop appends the members' text |
| Printer.PrintPreallocated | cJSON.c:1192-1209 | succeeds if and only if the tree is printable and the length is at least its text plus 2, so the five spare bytes cJSON.h:160 advises always suffice; then the buffer holds the text |
| Printer.PrintBuffered | cJSON.c:1162-1190 | with any initial size the growing form gives the same text, NUL-terminated |
| Printer.Print | cJSON.c:1087-1150 | the same for the form that starts at 256 bytes and cuts the buffer to size |
| Minify.MinifyInPlace | cJSON.c:2633-2701 | on any text, rewriting the array in place with the write position never beyond the read position: the loop steps over the terminator if and only if the text leaves a literal or a block comment open, and otherwise leaves exactly the minified text and its terminator |
| Minify.CopyLiteral | cJSON.c:2678-2691 | a string literal is copied as it is, escaped quotes included; the read position ends behind the terminator if and only if there is no closing quote |
| Minify.SkipComment | cJSON.c:2669-2677 | a block comment is passed over up to its end; the read position ends behind the terminator if and only if there is no end |
| Minify.OpenLiteralOverruns | cJSON.c:2678-2691 | a text that opens a literal and never closes it makes the loop leave the text |
| MinifyLaws.MinifyUndoesFormatting | cJSON.c:2633-2701 | for every tree without Raw items, minifying its text in either format gives the unformatted text |
| MinifyLaws.ValueTurns | cJSON.c:1267-1338 | the same for a value standing anywhere in a text |
| MinifyMeaning.MinifyStaysInside | cJSON.c:2633-2701 | a text the parser accepts up to its end minifies without leaving the text |
| MinifyMeaning.MinifyKeepsMeaning | cJSON.c:2633-2701 | every text the parser accepts up to its end, written by anybody, minifies to a text with the same tree |
| MinifyMeaning.ValueKept | cJSON.c:1212-1265 | the parser reads the same value at corresponding places of a text and its minified form |
| MinifyMeaning.StringKept | cJSON.c:698-802 | the same for strings, escapes included |
| MinifyMeaning.NumberKept | cJSON.c:266-327 | the same for numbers, whose bytes do not run together |
| MinifyParts.OnlyCommentsGo | cJSON.c:2642-2697 | of a text of blanks, line and block comments, string literals and other bytes in any order exactly the literals and the other bytes are kept; the loop runs past the end if and only if a block comment or a literal is left open |
| Compare.GetObjectItem | cJSON.c:1772-1802 | finds the first member of the name in both case modes, except that the case-sensitive search gives up if and only if a nameless child stands in front of it |
| Compare.CompareItems | cJSON.c:2803-2926 | on any two trees, in both case modes and whatever number each lexeme is read as, true if and only if both denote something and the same value, objects read as maps in which the first member of a name counts |
| Equality.SameIff | cJSON.c:2803-2926 | two items compare equal if and only if they are of one type and their numbers are read as the same, their strings are there and the same, their arrays are equal place by place, or of each object every name is first found in the other, in either case of letters if asked for, at an equal value |
| Compare.CompareArrays | cJSON.c:2862-2883 | the array walk decides element by element |
| Compare.CompareObjects | cJSON.c:2885-2919 | the two walks over the members decide equality of the maps |
| Compare.Covers | cJSON.c:2889-2902 | one walk: every member is found equal in the other object, or the objects differ |
| Compare.ObjectsAgree | cJSON.c:2885-2919 | objects that cover each other denote the same map |
| Compare.RepeatedNameDiffers | cJSON.c:2885-2919 | an object that repeats a name with another value is not equal to itself |
| Compare.OrderOfMembers | cJSON.c:2885-2919 | permuting the members of a meaningful object leaves it equal |
| ChildList.Item.GetArrayItem | cJSON.c:1743-1760 | yields the child at the position, or null beyond the end |
| ChildList.Item.AddItemToArray | cJSON.c:1848-1875 | appends, for lists of any length, and keeps the links; refuses null |
| ChildList.Item.InsertItemInArray | cJSON.c:2145-2172 | inserts in front of the position or appends; a negative position changes nothing |
| ChildList.Item.DetachItemViaPointer | cJSON.c:2075-2103 | removes exactly that child, first, last or between, and leaves it unlinked; null and an item in no list are handed back and change nothing |
| ChildList.Item.DetachItemFromArray | cJSON.c:2105-2113 | removes and returns the child at the position, or changes nothing |
| ChildList.Item.ReplaceItemViaPointer | cJSON.c:2174-2207 | puts the replacement in the child's place and unlinks the child; replacing by itself changes nothing, null arguments are refused |
| ChildList.InsertThenDetach | cJSON.c:2105-2172 | detaching at a position undoes inserting there: same list, same item, unlinked again |
| ChildList.DetachThenInsert | cJSON.c:2105-2172 | inserting a detached child where it was restores the list |
| Duplicate.CopyItem | cJSON.c:2565-2592 | the new item carries, field by field, all that the source does, except the reference flag |
| Duplicate.DuplicateItem | cJSON.c:2554-2622 | the copy consists of new items only, properly linked at every level, and holds the source's tree; the source is not touched |
| Duplicate.DuplicateChildren | cJSON.c:2597-2620 | the walk along the children links the copies in order |
| Duplicate.DuplicateTree | cJSON.c:2554-2631 | null in, null out, and otherwise a copy |
| Duplicate.CopyMeansTheSame | cJSON.c:2565-2592 | a recursive copy stands for the same value |
| Duplicate.DuplicateComparesEqual | cJSON.c:2554-2631 | a recursive duplicate compares equal to its source if and only if the source denotes something |
| AnswerGate.NormaliseNumbers | api.c:416-424 | numeric ids with the same text are the same id |
| AnswerGate.CallbacksInOrder | api.c:529-549 | our own join is the first callback of its event and of no other event, our own id comes right behind it, and every participant after both; what they carry is `AnswerCauses.CallbacksCarry` |
| AnswerCauses.CallbacksCarry | api.c:402-431 | the participant callbacks of an event are, in order and one for one, its entries that carry an id, each with that entry's own id text and own `setup`; a join of ours carries its gating and timeout and our id, and `answered` is called by the SDP answer or the connection coming up, as the channel asked |
| AnswerCauses.JoinArms | mod_janus.c:149-158 | a join arms the gate exactly if it asks for it, with the time it asks for or ten seconds |
| AnswerCauses.FirstIdStays | mod_janus.c:452-460 | the first report of our own id is the one that is kept |
| AnswerCauses.RequestAnswers | mod_janus.c:384-432 | a request for the answer is met at once unless the gate is on and nobody is ready; then it is noted |
| AnswerCauses.EntryAnswers | mod_janus.c:462-491 | an entry under another id than our recorded one releases the answer exactly if it is set up, the gate is on and no answer is claimed, and answers at once what was requested |
| AnswerCauses.NothingChanges | mod_janus.c:440-475 | an entry under our recorded id, and a call that finds no server or session, changes no flag |
| AnswerGate.StepKeepsInv | mod_janus.c:384-491 | every step of either thread, and the loss of the server's entry at any time, keeps the invariant |
| AnswerGate.AnsweredAtMostOnce | mod_janus.c:406-432 | over every interleaving the channel is answered at most once |
| AnswerGate.LostOnlyAfterMiss | mod_janus.c:462-491 | an answer both requested and released is without a thread about to call `answered` only after such a call found no server; after a miss of the media thread the deadline has passed unless `joined` ran again |
| AnswerGate.LosesIff | mod_janus.c:384-397 | a step loses the answer if and only if it is that call, by the only thread about to act, with the server not in its table |
| AnswerGate.AnsweredOnlyWhenReleased | mod_janus.c:452-481 | with the gate on, the answer is claimed only after the callback of a participant not known to be ourselves reported setup, our own id being known unless the report of it found no server, or after the deadline passed |
| AnswerCauses.AnsweredFromEvents | mod_janus.c:452-481 | over every run the answer is claimed only after an entry that Janus sent as set up under another id than the recorded one, which is that of a join of ours that was received, or after the time a received join asked for has passed |
| AnswerGate.OwnEntryOpensIff | mod_janus.c:452-481 | a participant entry under an id of ours opens the gate if and only if the gate is on, the entry is set up, no answer is claimed and another id of ours, or none, is the recorded one; with none recorded, the report of it had found no server |
| AnswerGate.OneIdOpensOnlyAfterMiss | mod_janus.c:452-481 | over runs whose own joins carry one id, our own entry opens the gate only after the report of that id found no server, and exactly if none is recorded |
| AnswerGate.DeadlineAnswers | mod_janus.c:1157-1170 | a requested answer has a deadline, and once it has passed one frame of the media thread answers the leg |
| AnswerGate.FrameAnswersAnyway | mod_janus.c:1157-1170 | the same in any interleaving: while server and session can be found and `joined` does not arm the gate again, one frame of the media thread sees the answer claimed, and the claim is the one answer given or about to be |
| AnswerCauses.FrameTimesOutIff | mod_janus.c:1157-1170 | a frame on its own goes for the answer if and only if the gate is on, the answer is requested and not claimed, and the deadline has passed |
| AnswerTiming.ReleaseAfterWindow | mod_janus.c:149-158 | over every run the fallback releases no earlier than the timeout after `joined` |
| AnswerTiming.EarlyAnswerIff | mod_janus.c:1157-1170 | a waiting answer can be given by the fallback before the documented time, request plus timeout (README.md:145), if and only if the request came after `joined` and that time is not yet past |
| AnswerTiming.AnsweredAtOnce | README.md:145 | a run in which the request comes past the deadline and the next frame answers at the very same time |
| AnswerTiming.LosingRun | mod_janus.c:1157-1170 | a run in which the media thread finds no server, the server comes back, and nobody is left to answer |
| AnswerTiming.ReleasedByOurselves | mod_janus.c:452-481 | a run in which the report of our own id finds no server and our own entry in a participant list opens the gate |
| AnswerTiming.OpenedBySecondId | mod_janus.c:452-460 | a run in which every report arrives, a second join brings a second id, and the entry under it opens the gate |
| Trickle.LegObject.ProceedWithSdp | mod_janus.c:242-263 | on any body and candidates: no body, the text the buffer holds, or an overrun of the buffer |
| Trickle.Strncat | mod_janus.c:252-263 | appends at most the limit of bytes; every store lies inside the buffer if and only if what is there, the bytes taken and the terminator fit |
| Trickle.WholeTextIff | mod_janus.c:252-263 | the whole text is negotiated if and only if body and candidates together are below 4096 bytes |
| Trickle.OverrunIff | mod_janus.c:252-263 | the buffer is overrun if and only if both texts are there and together reach 4096 bytes, because the limit of `strncat` does not count what the buffer holds |
| Trickle.TooLongIsCut | mod_janus.c:252-263 | a single text that is too long is cut to 4095 bytes |
| Trickle.InlineIff | mod_janus.c:313-322 | a body has inline candidates if and only if a candidate line stands in it |
| Trickle.OverrunWitness | mod_janus.c:252-263 | a body of 3000 and candidates of 2000 bytes |
| Trickle.LegObject.OnAccepted | mod_janus.c:313-322 | stores the body and proceeds if candidates are inline or complete |
| Trickle.LegObject.OnTrickle | mod_janus.c:344-364 | appends a candidate line, or completes and proceeds if the body is there |
| Trickle.LegAfter | mod_janus.c:313-364 | body, candidate text, completion and calls of `proceed` after any number of events of any interleaving |
| Trickle.TrickleConfluence | mod_janus.c:313-364 | without inline candidates `proceed` runs exactly once, at the later of body and completion, with the body and the lines in arrival order, and the whole text if and only if it is below 4096 bytes |
| Trickle.StreamConfluence | mod_janus.c:313-364 | wherever the body falls in a candidate stream, before, inside or after it, `proceed` gets the same text (compare section 14 of RFC 8838) |
| Trickle.ProceedsTwiceIff | mod_janus.c:313-364 | `proceed` runs twice if and only if a body with inline candidates precedes the completion |
| WsContext.Context.MatchRpcReply | janus_ws.c:138-161 | takes a frame as reply exactly if transaction and type fit the request in flight |
| WsContext.Context.DrainToDeferred | janus_ws.c:193-254 | without callbacks: takes the reply and queues everything else |
| WsContext.Context.RpcJson | janus_ws.c:276-334 | a request that was not written returns nothing and reads nothing; one that was written returns a reply exactly if a fitting frame comes in time, namely the last fitting one of those that come in one go with the first |
| WsContext.Context.DispatchEvent | janus_ws.c:186-191 | runs only with no request in flight, also when its callbacks made requests |
| WsContext.Context.FlushDeferred | janus_ws.c:256-270 | dispatches the detached queue in order; what callbacks queue meanwhile waits |
| WsContext.Context.DrainToCallbacks | janus_ws.c:193-254 | with callbacks: every parsed frame is dispatched |
| WsContext.Context.PumpOneSlice | janus_ws.c:421-445 | flush, then wait, then drain, or a failed transport |
| WsContext.Context.PumpOnce | janus_ws.c:340-451 | a keepalive request if one is due, then slices, at least one and at most as many as the time allows, until one found something to read or failed; it fails exactly if its last slice did |
| WsMux.Rpc | janus_ws.c:276-334 | a request changes neither the dispatch log nor the detached queue: nothing is dispatched and no request starts while it waits, and none is in flight afterwards; what it returns is `WsReplies.RpcReplies` |
| WsReplies.RpcReplies | janus_ws.c:276-334 | said over the polls: a request gets a reply if and only if a frame with its transaction and type success, ack or error comes before the socket fails and before its waits are used up; which frame that is; and every other message it reads is set aside in order |
| WsReplies.OneReply | janus_ws.c:304-330 | at most one frame is that reply |
| WsReplies.FlushDispatches | janus_ws.c:256-270 | a flush hands over all that was set aside before it, in order, whatever the callbacks request meanwhile |
| WsReplies.SliceDispatches | janus_ws.c:404-451 | with callbacks that never wait a slice hands over what was set aside and then every message up to the next pause or failure, and reports a failure exactly when it met one |
| WsMux.Run | janus_ws.c:276-451 | between two actions no request is in flight and no detached event is left |
| WsLaws.EventsAreConserved | janus_ws.c:193-270 | over any run with requests from callbacks, every parsed frame is a matched reply, or dispatched exactly once, or still queued; those dispatched on arrival keep their order, and so do those queued |
| WsLaws.ReplyMatchesRequest | janus_ws.c:304-330 | any reply returned carries the request's transaction and type success, ack or error |
| WsLaws.OrderIsArrivalOrderIff | janus_ws.c:404-451 | dispatch order is arrival order on every run if and only if no callback waits for a reply |
| WsLaws.Overtaking | janus_ws.c:193-270 | for any callback that waits, a run in which an event overtakes an earlier one |
| Registry.CollectEndpoints | servers.c:562-594 | the first valid answer under each name, at most 64 names, all of them if fewer |
| Registry.PodNameValid | servers.c:241-264 | the scan accepts exactly the names of 1 to 63 lower-case letters, digits and hyphens without a hyphen at either end |
| Registry.ServerTable.ApplyEndpoints | servers.c:601-612 | unknown names become dynamic servers, known dynamic ones are brought up to date field by field, static ones and unseen ones stay |
| Registry.ServerTable.CollectStale | servers.c:614-637 | in whatever order the table is walked: 64 of the unseen idle dynamic servers, or all if fewer |
| Registry.ServerTable.Evict | servers.c:779-816 | the server leaves both tables and no other entry does |
| Registry.ServerTable.Refresh | servers.c:521-657 | without a usable service nothing changes; otherwise the endpoints are collected and the table is reconciled with them, and the session table loses exactly the evicted servers' entries |
| Registry.RefreshOutcome | servers.c:562-651 | static servers and unseen servers with calls are unchanged; a known dynamic server that was seen has the address and url reported, no failures, its calls and published session as before, and stays verified exactly if its url did not change; a new name has a fresh server; and the stale ones left are those not evicted |
| Registry.RefreshIsExact | servers.c:614-651 | with at most 64 stale servers the dynamic names are exactly the seen ones not shadowed by a static server and the unseen ones with calls |
| Registry.RepeatedRefresh | servers.c:634-651 | each repeated refresh removes 64 stale servers until none is left |
| Registry.RefreshReachesFixedPoint | servers.c:521-657 | with none left a further refresh changes nothing |
| ServerLaws.StepKeepsInv | mod_janus.c:539-738 | every step of any thread, refresh, command or call keeps the table invariant, if a start that goes ahead finds no thread, none being created and none being waited for |
| ServerLaws.OneEntryPerServer | mod_janus.c:539-683 | in every state of a run with such starts a session entry is keyed by the session a live thread of its server holds, so a server has at most one |
| ServerLaws.OneThreadPerServer | mod_janus.c:687-738 | in such runs a server never has two threads, nor a thread while another is created |
| ServerLaws.EvictedLeavesNothing | mod_janus.c:664-683 | in such runs, once an evicted server's threads have ended and no refresh has yet to ask for its removal, neither table leads to it |
| ServerLaws.StartFindsNoThread | servers.c:605-609 | in such runs a start that still finds its listed server disabled in its locked section is such a start |
| ServerRounds.PollSucceeds | mod_janus.c:648-662 | a thread whose session is in the lookup polls, and a poll that succeeds changes nothing |
| ServerRounds.PollFails | mod_janus.c:648-662 | a poll that fails takes the session out of the lookup and the published id off the server; the thread keeps the session |
| ServerRounds.PollFailsAndRecovers | mod_janus.c:562-662 | after a failed poll a claim that succeeds brings back exactly the state before it |
| ServerRounds.Claims | mod_janus.c:562-583 | a claim that succeeds publishes the session the thread holds and enters it in the lookup |
| ServerRounds.ClaimRefused | mod_janus.c:584-604 | a claim that Janus refuses makes the thread give up its session |
| ServerRounds.SocketFails | mod_janus.c:553-571 | a socket that cannot be opened, or fails during a claim, leaves everything as it is |
| ServerRounds.Creates | mod_janus.c:605-640 | a new session is published and entered, with no calls and, on a dynamic server, no failures |
| ServerRounds.CreatesInVain | mod_janus.c:631-638 | if the lookup refuses it, thread and server forget it |
| ServerRounds.CreateFailsStatic | mod_janus.c:605-622 | a static server whose thread fails to create a session is as it was |
| ServerRounds.CreateFails | mod_janus.c:607-622 | a failed create is counted in 32 bits, and unless that makes the server give up the thread tries again |
| ServerRounds.CreateFailsForGood | mod_janus.c:607-622 | with no calls, no published session and the configured number of failures the server is marked and the thread leaves its loop |
| ServerRounds.Ends | mod_janus.c:668-683 | a thread that sees its server terminating takes its session out of the lookup and ends, by way of the name table if the server is evicted |
| ServerRounds.LeavesTables | servers.c:779-816 | the thread of an evicted server takes its name and its published session out of the tables and its marks off the server |
| ServerRounds.Starts | mod_janus.c:687-707 | a start that is forced, or finds the server disabled, enables it and creates a thread; any other changes nothing |
| ServerRounds.Stops | mod_janus.c:709-722 | a stop of a server with a running thread tells the thread and waits for it |
| ServerRounds.StopsOver | mod_janus.c:720-731 | once the thread has ended, and not before, the server is disabled |
| ServerRounds.StopsNothing | mod_janus.c:732-738 | a stop that finds no thread takes an evicted dynamic server out of both tables and leaves any other as it is |
| ServerRounds.Registers | servers.c:402-438 | a refresh registers an unknown name as a fresh dynamic server and gives it a thread |
| ServerRounds.Restarts | servers.c:605-609 | a refresh gives a disabled dynamic server a thread |
| ServerRounds.EvictsIdle | servers.c:634-651 | a refresh that evicts a server without a thread takes it out of both tables |
| ServerRounds.ConsoleStarts | mod_janus.c:1690-1697 | the console starts a server unless it is enabled |
| ServerRounds.ConsoleStops | mod_janus.c:1690-1697 | the console stops a running server by telling its thread and waiting for it |
| ServerRounds.Clears | servers.c:440-464 | a sighting and a confirmed dial clear the failures, and a call that cannot be made takes the published id back |
| ServerRaces.OneThreadIff | mod_janus.c:687-707 | over every run: no server ever has two threads, or one while another is created, if and only if every start that goes ahead finds none |
| ServerRaces.SecondEntryIff | mod_janus.c:687-707 | after a run with such starts, the next start that goes ahead can give its server two entries by the server's own later steps if and only if the server is not being stopped and has a thread in its loop or one about to be created |
| ServerSequels.SecondEntryLaterIff | mod_janus.c:687-738 | the same for everything that can follow but a further start of the server, stops, refreshes and removals included, provided no stop is just about to read which thread to wait for |
| ServerSequels.RescuedRun | mod_janus.c:716-731 | a run that needs the proviso: the start goes ahead on a server being stopped, the stop waits for the new thread and clears the flags, and the old thread goes on to a second entry |
| ServerRaces.TwoEntriesRun | servers.c:605-609 | a run with two entries for one server: the refresh finds it disabled, the console starts it, the refresh forces its own start |
| ServerTables.IdsLeadHome | mod_janus.c:576-640 | over every run with distinct session ids, an id a server publishes or a thread holds leads to that server if to any |
| ServerTables.EntryLeaves | servers.c:779-816 | with distinct session ids an entry is removed only by the thread that holds the session, where it drops it or is done, or by the removal of its server; what led the thread there is `ServerEntries.EntryLeavesFor` |
| ServerEntries.EntryLeavesFor | mod_janus.c:648-671 | over every run with distinct session ids an entry leaves only because its server is removed, or by the thread that holds the session, whose last step was a poll with a reply other than success, or to find its server terminating or give it up |
| ServerEntries.SessionIsServed | mod_janus.c:572-662 | a thread whose insertion succeeds has its session in the lookup under its server, and there it stays for the whole rest of the run unless one of these causes takes it out at some step |
| ServerEntries.SessionGivenUpIff | mod_janus.c:562-640 | a thread gives up its session if and only if Janus refuses the claim of it or the lookup the entry |
| ServerEntries.PublishedChanges | mod_janus.c:572-662 | a published id changes only when a thread of the server publishes the session it holds, the lookup refused that, a poll failed, the server is removed, or a call that could not be made takes it back |
| ServerTables.NameLeaves | servers.c:779-816 | a name leaves the table if and only if a dynamic server of that name is removed |
| ServerTables.NameLeavesByEviction | mod_janus.c:678-680 | over every run that server was marked as evicted |
| ServerTables.SuccessorLosesItsName | servers.c:793-810 | a run in which an ending thread takes the name of a running server registered after it |
| ServerCauses.FailuresAreInARow | servers.c:723-741 | the failure count is the number of failed creates in the last stretch of the history without a reset |
| ServerCauses.StepKeepsCounted | servers.c:723-741 | the counter equals that number modulo 2^32 after every step |
| ServerCauses.DecidesIff | servers.c:743-777 | a thread decides to evict its server if and only if there are no calls, no published session and, modulo 2^32, at least the configured number of failures in a row |
| ServerCauses.EvictionHasCause | mod_janus.c:607-626 | over every run a server becomes evicted only by a refresh, or by a thread of its own that decided so at an earlier step of the run, when there were no calls, no published session and at least the configured number of failures in a row |
| ServerCauses.CauseStandsIff | mod_janus.c:617-619 | when the flag is set that cause still stands if and only if there are no calls and no published session, and nothing has reset the count since the decision or as many creates failed again since |
| ServerCauses.OrderlyCauseStandsIff | mod_janus.c:617-619 | in runs with orderly starts no session is published and no create fails in between, so it stands if and only if no call came in and nothing reset the count |
| ServerCauses.EvictedAfterSighting | servers.c:456-457 | a run in which the refresh sees the pod between decision and flag, and it is evicted without a failure |
| ServerCauses.EvictedUnderCall | mod_janus.c:831-834 | a run in which a call comes in between decision and flag, and the server is evicted with it |

## Left out

- Numbers: in the parser and printer a number is its decimal text. What `strtod` reads and `sprintf` writes are arbitrary functions in `Compare` and `Reparse`; that the text of a finite number is read back as the same number is assumed in `Reparse`. NaN and the locale's decimal point are not modelled.
- Allocation: every allocation succeeds, and the printer's buffer grows as with a `realloc` hook; the path that copies by hand is not modelled.
- Bit operations are written as division, remainder and addition.
- Trees in the parser, printer and comparison are values; the linked list they are stored in is modelled in `ChildList` and `Duplicate`.
- Literals.DecodeInto: a decoded string ends for its users at its first NUL; the bytes behind it are written but not seen.
- Minify.MinifyInPlace: ends where the code would read behind the terminator; what it does from there on depends on memory the text does not own.
- Trickle.LegObject.ProceedWithSdp: ends where the code would store behind its buffer; negotiation and pre-answer are not modelled.
- Compare.CompareItems: the shortcut for one and the same item is not modelled, it compares two items.
- Duplicate.DuplicateItem: strings are values, so that a constant name is shared and other strings are copied is not visible.
- ChildList.Item.DetachItemViaPointer: requires that an item is a child of this parent or in no list; the code takes for granted that it is not another parent's child.
- ChildList.Item.ReplaceItemViaPointer: ends before the replaced item is deleted.
- AnswerGate.Callbacks: an event is given as what was read of it; the lookups in its JSON body are not modelled.
- AnswerGate: negotiating, hanging up and the outcome of the answer call are not modelled, only that it was made.
- WsContext.Context.RpcJson: time is a number of waits; printing and writing the request is a yes or no.
- WsContext.Context.DrainToDeferred: the queue is a sequence, and queueing never runs out of memory.
- Registry.ServerTable.Refresh: DNS, HTTP probes and URL assembly are inputs, and the refresh runs alone, from tables as `ServerLaws.OneEntryPerServer` and `ServerTables.IdsLeadHome` have them; refreshes that overlap with each other and with threads are the subject of `ServerThread`, where several may evict the same server.
- Registry.RepeatedRefresh: calls and threads stand still between the refreshes.
- ServerThread: the exact count of calls is not modelled, the counter may change at any time; taking a server out of both tables is one step under the global mutex; senders, sockets and the back-off are left out.
- HTTP transport, libks, curl, mutex and thread primitives, FreeSWITCH media and channel calls are not part of this model.
- Building requests, authentication, XML configuration, console output, dial strings, codecs and DTMF are left out: they assemble or read strings once and keep no state that the modelled parts depend on.
- Creating, deleting and naming items (`cJSON_Create...`, `cJSON_Delete`, `cJSON_AddItemToObject`) are left out: the model's trees and lists start from items that are there, and memory is not reclaimed in it.
