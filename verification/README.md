# Models of the mcp-authz decision core

mcp-authz puts permissions in front of MCP servers and HTTP APIs. Its TypeScript package (with a
Python twin of the remote proxy) decides what a caller may see and do, and rewrites what passes
through. This project models the algorithms those decisions rest on and proves, over every input,
every run and every chunking, what they are for. `dafny verify dfyconfig.toml` checks all of it.

Code that is imperative in the source is imperative here: the stream filter, the stdio mediator,
the freshness record and the terminal audit are classes with the source's fields; the scanners,
the comment stripper and the document loops are methods. Each is proved against a specification
function or a stated property, and the main theorems are about those.

| file | what it models |
|---|---|
| `EventFraming`, `Utf8`, `EventStream`, `EventFields`, `EventRewrite`, `FilteredStream` | the server-sent event filter: reference split, bytes, the incremental class that refines it, blocks as they are written, the rewriting of payloads, and the whole as a client reads it |
| `JsonText`, `DuplicateKeys`, `ExactNumbers` | strict JSON: texts as syntax trees with all their whitespace and escapes, the one-pass name scan, exact decimal comparison |
| `WrapSpec`, `WrapSafety`, `WrapPassing`, `Wrap` | the stdio mediator as a state machine over lines, its invariants over all runs, what it passes on, and the class that takes those steps |
| `Jsonc`, `WrapConfig`, `Refresh` | the config file: comment stripping, the writer's text, and chains of refreshes |
| `Definitions`, `UpstreamRecord` | recorded definitions and what was last seen of them |
| `WindowsQuoting` | Windows argument quoting against the documented splitting rules |
| `Openapi`, `Proxy`, `Policy`, `Audit` | the decision core: routing and offering, pricing and listing, policy meaning, audit protocol |
| `Optional`, `Sequences`, `Whitespace`, `Numerals` | shared small definitions |

## Where the code falls short of a general law

Each of these is proved, with the exact condition or a concrete input beside the general theorem.

- Whether a text near the cap is accepted can depend on its chunking: exactly when it is accepted
  whole but some event does not fit together with the part of its terminator that can be held
  (`EventStream.AcceptedExactly`, `EventStream.ChunkingDecidesNearTheCap`).
- A rewritten final event that ended in a bare CR loses its terminator, so no client dispatches
  it (`EventRewrite.ReplacementIsLostExactly`).
- A command line whose program name holds a quote or ends in a backslash does not survive
  (`WindowsQuoting.CommandLineSurvives`); no path of a Windows executable is such a name.
- A drifted tool is shown when another entry of its name, listed last, has not drifted
  (`WrapSafety.DriftedToolIsShownExactly`).
- A refresh records a changed definition under a name it keeps allowed exactly when a tool named
  `server:instructions` is unchanged beside changed instructions, which share its label
  (`Refresh.ChangeSlipsThroughExactly`, `Refresh.InstructionsLabelLetsAChangeThrough`).
- A call fails after its attempt without any terminal event exactly when its approver answers with
  nothing (`undefined`, which the type forbids but the code does not check), or its approver or its
  handler throws a value that `String` itself throws at (`Audit.WrittenIs`, `Audit.SomeCallsNeverEnd`).
- A tool recorded under its `tool:` label is refused for good, however often it is listed under its
  bare name, and one priced only there is never shown (`Proxy.SecondRecordStaysRefused`,
  `Proxy.PrefixedPriceIsUseless`).
- An offered operation on a path that a request cannot spell as written, such as one with a letter
  outside ASCII, is never reached by its own path (`Openapi.OfferedIsServed`).

## Assumptions the theorems state

- `WrapSafety`: the client never uses the mediator's own id prefix. `OwnAnswersStayHidden` adds that
  the server answers only requests still open; `AnswersAreScreened` that no two open requests share
  the answered id; both are what JSON-RPC 2.0 section 4 intends.
- Distinct names within one listing, only in `WrapSafety.DistinctListingShowsApprovedTools`; that
  definitions are JSON objects, which repeat no key, where a theorem says `Sound`.
- `Refresh.DiscoveryIsCaptured`: a listing is captured whole before its tools are looked up, as the
  SDK follows `nextCursor` on its own.
- `ExactNumbers`: rounding to a double keeps order and is exact up to 2^53; a text has at most 2^50
  digits; and the text `String` gives a double has an exponent within 2^50. The exponent of a text
  received is not bounded.
- `EventRewrite`: a rewritten body is one line, as `JSON.stringify` writes it.

## Model

| member | source | states |
|---|---|---|
| EventFraming.RestartFindsTheSame | packages/mcp-authz/src/proxy.ts:907-949 | Stepping the search back three characters finds exactly the match a search of the whole buffer would find. |
| EventFraming.FindIsStable | packages/mcp-authz/src/proxy.ts:950-956 | Once an event end is complete (a trailing lone CR is not), no later text moves it or changes its length. |
| EventFraming.SplitAppend | packages/mcp-authz/src/proxy.ts:945-969 | Splitting in two parts is splitting at once, for any cut: the chunk-independence law of the reference split. |
| EventFraming.SplitIsLossless | packages/mcp-authz/src/proxy.ts:957-967 | The events, their ends and the tail, in order, are the whole text. |
| EventFraming.EventsAreLeftmost | packages/mcp-authz/src/proxy.ts:1032-1041 | Each event ends in two line ends, in any mix of CRLF, LF and lone CR, and no such pair starts earlier in it. |
| EventFraming.TailIsUnterminated | packages/mcp-authz/src/proxy.ts:950-956 | What is left over holds no complete event end, and splitting it again finds none. |
| EventFraming.HeldPartIsSmall | packages/mcp-authz/src/proxy.ts:909-911 | What is buffered of an arriving event is at most its block and three characters. |
| Utf8.BytesAreRead | packages/mcp-authz/src/proxy.ts:904-908 | The bytes of a character, given on their own, are read back as it by the rules of RFC 3629, whatever follows: lead byte, continuation bytes, nothing overlong. |
| Utf8.TextIsRead | packages/mcp-authz/src/proxy.ts:904-908 | So the bytes of a text are read back as the text. |
| Utf8.LengthIsBytes | packages/mcp-authz/src/proxy.ts:904-908 | The length the cap is held against is the number of those bytes, not of characters or UTF-16 units. |
| EventStream.EventStream.Search | packages/mcp-authz/src/proxy.ts:946-954 | The restarted search is the full search, and tries at most the new characters and three more. |
| EventStream.EventStream.Drain | packages/mcp-authz/src/proxy.ts:945-969 | The loop sends exactly the reference split of the buffer, up to the first event over the cap; the carried byte count stays exact; positions tried stay within the text read plus three a search. |
| EventStream.EventStream.Transform | packages/mcp-authz/src/proxy.ts:972-996 | One chunk takes the abstract step; between chunks the byte count is exact and within the cap, and nothing is written after a refusal. |
| EventStream.EventStream.Flush | packages/mcp-authz/src/proxy.ts:997-1009 | The end writes the tail unless it is blank; its oversize branch is dead. |
| EventStream.FilterEventStream | packages/mcp-authz/src/proxy.ts:971-1010 | A whole response, any chunking: the class computes the specified output. |
| EventStream.RunIsSplit | packages/mcp-authz/src/proxy.ts:945-996 | For every chunking not refused, what was sent and what is held are the reference split of the whole text. |
| EventStream.RunAtTrip | packages/mcp-authz/src/proxy.ts:958-995 | What a refused stream has written: the admitted events of the first prefix that holds something over the cap, and one refusal. |
| EventStream.RunVerdict | packages/mcp-authz/src/proxy.ts:953-996 | Refused if and only if some prefix of the chunks, read whole, holds an event or a rest over the cap. |
| EventStream.ChunkingDoesNotMatter | packages/mcp-authz/src/proxy.ts:945-1010 | Two chunkings of one text that are not refused write the same output: the reference events, then the tail unless blank. |
| EventStream.OnlyAdmittedEventsAreSent | packages/mcp-authz/src/proxy.ts:958-995 | In every chunking the events sent are a prefix of the text's events, each of at most as many bytes as the cap, and a refusal comes last. |
| EventStream.OversizedIsAlwaysRefused | packages/mcp-authz/src/proxy.ts:958-962 | An event of more bytes than the cap is refused in every chunking. |
| EventStream.AcceptedExactly | packages/mcp-authz/src/proxy.ts:945-996 | A text is refused in no chunking if and only if every event fits with as much of its terminator as can be held (all but a closing LF) and the tail fits; it is accepted in some chunking if and only if it is accepted whole. |
| EventStream.RoomForATerminatorIsNeverRefused | packages/mcp-authz/src/proxy.ts:953-962 | A corollary: three bytes of room are enough for every terminator. |
| EventStream.ChunkingDecidesNearTheCap | packages/mcp-authz/src/proxy.ts:945-962 | Some chunking is accepted and another refused if and only if the text is accepted whole and lacks that room. |
| EventStream.TwoBytesAreNotEnough | packages/mcp-authz/src/proxy.ts:953-962 | Such a text: one event two bytes under the cap. |
| EventRewrite.FilterEvent | packages/mcp-authz/src/proxy.ts:913-943 | The line loop computes the specified rewrite of the payload the block carries. |
| EventFields.LineIsRead | packages/mcp-authz/src/proxy.ts:878-927 | One line is data if and only if it was written as data (with or without a space, or bare), and then has the value it was written for. |
| EventFields.BlockIsRead | packages/mcp-authz/src/proxy.ts:913-928 | A block written with any line ends, spacing, comments and other fields is read for exactly the values it was written for, in order, and its other fields are kept as they stand. |
| EventFields.EveryLineIsWritten | packages/mcp-authz/src/proxy.ts:913-928 | And every line can be so written. |
| EventRewrite.PayloadsAreTheMessages | packages/mcp-authz/src/proxy.ts:913-943 | The payloads handed to the transform are exactly the messages a client following section 9.2.6 of the WHATWG HTML standard dispatches from the raw stream, in order. |
| EventRewrite.RewriteReads | packages/mcp-authz/src/proxy.ts:929-942 | A rewritten block parses back to the new payload with its other fields in order; an unchanged one is the same text. |
| EventRewrite.RewriteKeepsFraming | packages/mcp-authz/src/proxy.ts:935-967 | No payload can end its event early or join it to the next. |
| EventRewrite.ClientReadsTheAnswers | packages/mcp-authz/src/proxy.ts:913-943 | Rewriting the events and the tail of any text: a client dispatches exactly the transform's answers, in order, and the tail's message only if it stood. |
| EventRewrite.TailReads | packages/mcp-authz/src/proxy.ts:950-951 | A tail is a message only when it is an event held back for its last CR. |
| EventRewrite.ReplacementIsLostExactly | packages/mcp-authz/src/proxy.ts:950-1006 | The message of an unterminated tail is lost if and only if the tail is an event held back for its last CR, it carries a message, and the transform did not let it stand. |
| EventRewrite.FinalBareCrLosesItsReplacement | packages/mcp-authz/src/proxy.ts:997-1006 | Such a tail: the raw stream dispatches its message, the rewritten one nothing. |
| FilteredStream.ClientReadsTheFilter | packages/mcp-authz/src/proxy.ts:913-1010 | End to end over every chunking, refused or not, blank tails and the decoder's remainder included: the filter's client dispatches the answers to the messages of the events sent, then the refusal, or the tail's message if it stood; and what the raw stream's client reads is those events' messages. |
| FilteredStream.BlankIsNotDispatched | packages/mcp-authz/src/proxy.ts:999 | A tail dropped for being blank had nothing to dispatch. |
| FilteredStream.RefusalReads | packages/mcp-authz/src/proxy.ts:986-992 | The refusal event is read by the client as the refusal. |
| DuplicateKeys.ScanValue | packages/mcp-authz/src/strict-json.ts:15-38 | Scanning past any printed value finds the names it repeats and leaves the scope stack as it was: the stack mirrors the enclosing containers. |
| DuplicateKeys.ScanDocument | packages/mcp-authz/src/strict-json.ts:15-38 | On any legal text of any tree (all whitespace, all escapes) the scan answers whether some object repeats an unescaped name. |
| DuplicateKeys.HasDuplicateKey | packages/mcp-authz/src/strict-json.ts:15-38 | The index loop over a stack of sets stays in bounds, ends, and returns true if and only if the tree repeats a name. |
| DuplicateKeys.CloseOf | packages/mcp-authz/src/strict-json.ts:23-24 | The inner loop stops at the quote that closes the string: past any raw text it may hold, escapes included. |
| DuplicateKeys.SpellingsDecide | packages/mcp-authz/src/strict-json.ts:8-31 | However its names are spelled, an object repeats one if and only if two of them mean the same string. |
| DuplicateKeys.PassingTextReadsOneWay | packages/mcp-authz/src/strict-json.ts:1-14 | What the module is for: a text that passes reads the same whether a parser keeps the first or the last of two equal names, at every depth. |
| JsonText.WrittenStringReads | packages/mcp-authz/src/wrap-config.ts:156-165 | `JSON.stringify` of a string is valid JSON text and unescapes to that string. |
| JsonText.CodeIsRead | packages/mcp-authz/src/strict-json.ts:28-31 | A code unit written in four hexadecimal digits, each in either case, unescapes to it. |
| JsonText.SpellingsAreRead | packages/mcp-authz/src/strict-json.ts:28-31 | A string spelled in any mixture of plain characters, two-character escapes and code units unescapes to what those mean. |
| JsonText.EveryTextIsSpelled | packages/mcp-authz/src/strict-json.ts:28-31 | And every valid raw text is so spelled. |
| JsonText.PairsAreRead | packages/mcp-authz/src/strict-json.ts:28-31 | A character outside the first plane is a surrogate pair that gives it back. |
| JsonText.WrittenStringsDiffer | packages/mcp-authz/src/definitions.ts:53 | Two written strings that agree up to their closing quotes are the same string. |
| ExactNumbers.MatchIsPrint | packages/mcp-authz/src/strict-json.ts:103-105 | The pattern accepts exactly the printed numbers and captures their parts. |
| ExactNumbers.NormalIsUnique | packages/mcp-authz/src/strict-json.ts:106-112 | Digits without leading or trailing zeros and a scale are determined by the number. |
| ExactNumbers.SameDecimalDecides | packages/mcp-authz/src/strict-json.ts:57-113 | A number text compares equal to the text of a double if and only if both are numbers and denote the same rational, whatever the first one's exponent; zero has no sign. |
| ExactNumbers.DigitsAreRead | packages/mcp-authz/src/strict-json.ts:103-107 | The decimal digits of a number denote it. |
| ExactNumbers.PlusAppendsZeros | packages/mcp-authz/src/strict-json.ts:103-107 | An exponent with a plus or without a sign denotes the number with so many zeros appended. |
| ExactNumbers.MinusTakesZeros | packages/mcp-authz/src/strict-json.ts:103-107 | One with a minus takes them away again. |
| ExactNumbers.FractionIsScale | packages/mcp-authz/src/strict-json.ts:103-107 | A fraction is so many digits behind the point. |
| ExactNumbers.CompareDecimals | packages/mcp-authz/src/strict-json.ts:90-113 | The comparison as it runs, both texts read step by step into digits and exponent: true if and only if they denote one rational. |
| ExactNumbers.RefusedExactlyWhenInexact | packages/mcp-authz/src/strict-json.ts:57-83 | A checked document is refused if and only if some number leaf, at any depth, does not denote the number its double is shown as. |
| WindowsQuoting.BodyIsRead | packages/mcp-authz/src/windows-job.ts:7-9 | Inside its quotes an argument reads back as itself, whatever backslashes and quotes it holds. |
| WindowsQuoting.ArgumentsSurvive | packages/mcp-authz/src/windows-job.ts:38-40 | For any list of arguments, splitting the joined quoted line gives back exactly that list, with either reading of a doubled quote. |
| WindowsQuoting.CommandLineSurvives | packages/mcp-authz/src/windows-job.ts:38-40 | With a program name in front the whole line survives if and only if the name holds no quote and does not end in a backslash. |
| Definitions.CanonicalDecidesEqual | packages/mcp-authz/src/definitions.ts:57-72 | Equal canonical forms, if and only if equal up to key order at every depth (an independent recursive definition). |
| Definitions.CanonicalIsSound | packages/mcp-authz/src/definitions.ts:62-72 | The canonical form is canonical already: idempotence. |
| Definitions.UnitsLessMeans | packages/mcp-authz/src/definitions.ts:54-72 | One name sorts before another if and only if it is a proper start of it or has the smaller UTF-16 unit where they first differ. |
| Definitions.PermutedIsEqual | packages/mcp-authz/src/definitions.ts:57-72 | Permuting an object's members changes neither the value meant nor the canonical form. |
| Definitions.EqualIsAnEquivalence | packages/mcp-authz/src/definitions.ts:57-72 | Equality up to key order is an equivalence. |
| Definitions.WrittenValueIsReadable | packages/mcp-authz/src/definitions.ts:53 | `JSON.stringify` of a value can be read off any text it starts: the value, and where it ends, are determined. So comparing texts compares values. |
| Definitions.SameDecidesEqual | packages/mcp-authz/src/definitions.ts:53 | The text comparison of canonical forms decides equality up to key order; absent equals only absent. |
| Definitions.FieldSameIs | packages/mcp-authz/src/definitions.ts:52-54 | A field is the same when absent from both, or present in both with equal values; absent differs from null. |
| Definitions.ChangedFieldsDecide | packages/mcp-authz/src/definitions.ts:50-55 | The report is strictly sorted by UTF-16 units and exactly the recorded names that differ; empty if and only if the definitions are the same. |
| Definitions.ChangedFieldsIsSymmetric | packages/mcp-authz/src/definitions.ts:50-55 | Symmetric in the two definitions. |
| Definitions.UnchangedIsTransitive | packages/mcp-authz/src/definitions.ts:50-55 | Emptiness is transitive. |
| Definitions.DefinitionIsUnchanged | packages/mcp-authz/src/definitions.ts:44-48 | Taking an item's definition loses nothing that is compared. |
| Definitions.HeldToItem | packages/mcp-authz/src/definitions.ts:44-55 | Holding an item's definition to a record finds no change if and only if the item itself is the recorded one, up to key order and the two fields never recorded. |
| UpstreamRecord.UpstreamRecord.Matches | packages/mcp-authz/src/upstream-record.ts:32-51 | One observation updates the two maps, which stay exactly the last observation of each label. |
| UpstreamRecord.UpstreamRecord.RefuseStart | packages/mcp-authz/src/upstream-record.ts:53-73 | Waits if and only if a recorded label asked about is neither changed nor fresh; at most one listing is in flight. |
| UpstreamRecord.UpstreamRecord.ListingDone | packages/mcp-authz/src/upstream-record.ts:54-60 | A shared listing adds its observations in order, leaving the instructions out. |
| UpstreamRecord.UpstreamRecord.ListingFailed | packages/mcp-authz/src/upstream-record.ts:60-77 | A failed listing refuses and forgets nothing. |
| UpstreamRecord.UpstreamRecord.RefuseEnd | packages/mcp-authz/src/upstream-record.ts:78-84 | Allowed if and only if each recorded label's last observation matched less than sixty seconds ago; otherwise names the first that fails, and why. |
| UpstreamRecord.ChangedStaysRefused | packages/mcp-authz/src/upstream-record.ts:36-51 | Over any later observations and clock, a changed label stays refused until it is seen matching. |
| UpstreamRecord.TrustMeans | packages/mcp-authz/src/upstream-record.ts:25-51 | What is trusted, one note at a time: a match for less than sixty seconds, a change or a loss not at all, and other labels as before. |
| UpstreamRecord.PythonRecord.MatchesRecord | packages/mcp-authz-python/src/mcp_authz/proxy.py:674-691 | The one dictionary keeps the same last observation. |
| UpstreamRecord.PythonRecord.ReadEnd | packages/mcp-authz-python/src/mcp_authz/proxy.py:708-728 | A full reading settles every recorded label and drops those it did not list. |
| UpstreamRecord.PythonRecord.Verified | packages/mcp-authz-python/src/mcp_authz/proxy.py:670-672 | Answers by the same condition as the TypeScript record. |
| WrapSafety.CallsReachTheServerOnlyWhenAllowed | packages/mcp-authz/src/wrap.ts:94-113 | In every run: each `tools/call` written to the server names a tool the config lists, not last seen drifted, with arguments its record accepts, and with a record its last sighting since the last changed-list notice matched. |
| WrapSafety.DriftMeans | packages/mcp-authz/src/wrap.ts:84-107 | A tool has drifted if and only if its definition is not the recorded one, up to key order and what is never recorded, or it has no record and the config says what is offered. |
| WrapSafety.CallIsDecided | packages/mcp-authz/src/wrap.ts:243-272 | Every call is written on, held or answered with an error, at once and once, and an observer of both ends can say which: it is written on if and only if it may be. |
| WrapSafety.HeldCallsAreDecided | packages/mcp-authz/src/wrap.ts:135-174 | When the mediator's own listing is answered: with a next page, that page is asked for; with the last, every held call is written on if and only if it may be, by what was then last seen, and rejected otherwise, in order; with no tools, all are rejected. |
| WrapPassing.ClientLinesPass | packages/mcp-authz/src/wrap.ts:202-273 | Over every run, until it is told to stop: the client's messages that are no tool calls are written to the server and the lines refused before being looked at are answered with one error under their own id, in order, each once, and nothing else. |
| WrapPassing.ServerLinesPass | packages/mcp-authz/src/wrap.ts:332-387 | Over every run: every line of the server's that is no answer to the mediator's own listings is passed on, in order, each once, as it was but for its result's tools and instructions; and nothing else is. |
| WrapPassing.InstructionsAreHeld | packages/mcp-authz/src/wrap.ts:358-369 | Over every run, under a record: the answer to the client's `initialize` or `server/discover` reaches it with its instructions if and only if the record approves them. |
| WrapPassing.ListingsAreFiltered | packages/mcp-authz/src/wrap.ts:347-355 | Over every run: the answer to the client's `tools/list` reaches it with exactly the listed tools whose name's last entry has not drifted, in order. |
| WrapPassing.CallsAreListedSince | packages/mcp-authz/src/wrap.ts:94-113 | Over every run, under a record: a call is written on only when its tool has been listed since the last changed-list notice. |
| WrapSafety.VerifiedAndChangedAreDisjoint | packages/mcp-authz/src/wrap.ts:84-113 | In every run the two are disjoint, and each is exactly a function of what was last seen. |
| WrapSafety.HeldCallsAreConserved | packages/mcp-authz/src/wrap.ts:135-174 | In every run, the calls let go and then those still held are exactly those put on hold, in arrival order; while any is held a listing is under way. |
| WrapSafety.OwnIdsNeverRepeat | packages/mcp-authz/src/wrap.ts:137-146 | Over every run no two of the mediator's own pages share an id. |
| WrapSafety.OwnIdsAreFresh | packages/mcp-authz/src/wrap.ts:141-146 | A page is asked for under an id no open request has, and while no other page is awaited. |
| WrapSafety.PagesCarryTheirFields | packages/mcp-authz/src/wrap.ts:138-146 | Every page carries the protocol fields of the held call that began its listing. |
| WrapSafety.OwnAnswersStayHidden | packages/mcp-authz/src/wrap.ts:337-346 | Answers to the mediator's own listings never reach the client, over any number of pages and changed-list notices. |
| WrapSafety.ListingIsFiltered | packages/mcp-authz/src/wrap.ts:347-355 | A listing passed on holds exactly the listed tools whose name's last entry has not drifted, in order and as often as listed. |
| WrapSafety.DriftedToolIsShownExactly | packages/mcp-authz/src/wrap.ts:347-355 | A drifted tool reaches the client if and only if it is listed and the last entry of its name, another one, has not drifted. |
| WrapSafety.DistinctListingShowsApprovedTools | packages/mcp-authz/src/wrap.ts:353 | With distinct names, that entry is each tool's own. |
| WrapSafety.DuplicateNamesShowADriftedTool | packages/mcp-authz/src/wrap.ts:353 | Such a listing: a drifted tool beside an approved one of the same name listed after it. |
| WrapSafety.AnswersAreScreened | packages/mcp-authz/src/wrap.ts:370-386 | The answer to a call is screened against that tool's recorded definition before it is passed on. |
| WrapSafety.LastPageEmptiesTheQueue | packages/mcp-authz/src/wrap.ts:337-343 | When the last page arrives or the listing fails, no call stays held. |
| Wrap.Wrap.ReleaseHeld | packages/mcp-authz/src/wrap.ts:161-174 | The loop settles every held call in order and empties the queue. |
| Wrap.Wrap.OnClientLine | packages/mcp-authz/src/wrap.ts:202-273 | One client line takes the specified step and keeps the safety invariant. |
| Wrap.Wrap.OnServerLine | packages/mcp-authz/src/wrap.ts:332-387 | One server line takes the specified step and keeps the safety invariant. |
| Wrap.FrameAppend | packages/mcp-authz/src/wrap.ts:411-432 | Lines do not depend on how the stream was cut into chunks. |
| Wrap.StreamIsRead | packages/mcp-authz/src/wrap.ts:411-432 | Lines sent, each closed by LF or CRLF, are the lines cut, and the start of another is what is held. |
| Wrap.LineReader.Data | packages/mcp-authz/src/wrap.ts:420-427 | Each chunk leaves the lines of the whole text so far. |
| Wrap.LineReader.End | packages/mcp-authz/src/wrap.ts:428-431 | The end makes an unclosed last line a line. |
| Jsonc.StripComments | packages/mcp-authz/src/wrap-config.ts:411-432 | The loop that grows and trims one string computes the specified pass. |
| Jsonc.StripDocument | packages/mcp-authz/src/wrap-config.ts:407-434 | From any document with comments between tokens and trailing commas, exactly the plain JSON of the same value is left. |
| Jsonc.StripUnfinished | packages/mcp-authz/src/wrap-config.ts:420-432 | So it is when the file ends inside a line comment or a block comment. |
| Jsonc.GapsDoNotCount | packages/mcp-authz/src/wrap-config.ts:407-434 | What is read depends only on the document without its comments, whitespace and trailing commas. |
| Jsonc.ValidJsonIsUnchanged | packages/mcp-authz/src/wrap-config.ts:407-434 | Valid JSON text goes through character for character. |
| WrapConfig.ConfigRoundTrip | packages/mcp-authz/src/wrap-config.ts:148-178 | The text written strips to valid JSON whose value is the server and exactly the switched-on names in order, whichever lines are switched on. |
| WrapConfig.UncommentingAddsThatName | packages/mcp-authz/src/wrap-config.ts:153-158 | Switching an entry on adds exactly its name, in its place. |
| WrapConfig.UncommentingTheText | packages/mcp-authz/src/wrap-config.ts:148-178 | Deleting the comment mark in front of an entry's line, and nothing else in the text, leaves a file that reads with exactly that name added. |
| WrapConfig.UncommentingAnyLines | packages/mcp-authz/src/wrap-config.ts:148-178 | Deleting the marks of any entries, in any order, leaves a file that reads with exactly those names added, each in its place. |
| WrapConfig.SwitchedNames | packages/mcp-authz/src/wrap-config.ts:148-178 | So a tool is then allowed if and only if its entry was on or its mark was deleted. |
| Refresh.RefreshOnce | packages/mcp-authz/src/wrap-config.ts:134-149 | Whatever is discovered: a name allowed after was granted before, and its recorded definition is unchanged if and only if what was discovered last under it is. |
| Refresh.StaysAllowed | packages/mcp-authz/src/wrap-config.ts:134-149 | A name stays allowed if and only if it was granted before and some discovered tool of that name is the one recorded. |
| Refresh.WrittenOverAllows | packages/mcp-authz/src/wrap-config.ts:126-148 | A config written over another allows a name if and only if the other lists it and has it on record, and some discovered tool of it is the recorded one up to key order. |
| Refresh.FreshAllows | packages/mcp-authz/src/wrap-config.ts:113-143 | A config written where none is allows a name if and only if some discovered tool of it is claimed read-only, not destructive as well, and raised no warning. |
| Refresh.FreshFileAllows | packages/mcp-authz/src/wrap-config.ts:80-178 | Through the file: a fresh one reads back as exactly those names, in the order discovered. |
| Refresh.ChangeSlipsThroughExactly | packages/mcp-authz/src/wrap-config.ts:134-149 | A changed definition is recorded under a name still allowed if and only if the name is the instructions' label, it was granted, some tool of that name is unchanged, and the live instructions differ from the record. |
| Refresh.DiscoveryIsCaptured | packages/mcp-authz/src/wrap-config.ts:72-92 | Whatever a server lists, tools of one name are discovered with one definition, the last captured. |
| Refresh.CapturedKeeps | packages/mcp-authz/src/wrap-config.ts:134-149 | With definitions so captured, a name allowed after a refresh was granted before and is recorded as it was, unless it is the instructions' label and there are instructions. |
| Refresh.RefreshNeverGrants | packages/mcp-authz/src/wrap-config.ts:134-149 | Over any number of refreshes, whatever each discovers: a name still allowed was granted at the start. |
| Refresh.KeptThroughout | packages/mcp-authz/src/wrap-config.ts:134-149 | A name allowed at the end keeps its first recorded definition all along the chain if and only if every refresh recorded it as it found it. |
| Refresh.CapturedChainKeeps | packages/mcp-authz/src/wrap-config.ts:134-149 | Over any chain of such discoveries, a name still allowed keeps the definition it began with, but for that label. |
| Refresh.AllowedOnlyShrinks | packages/mcp-authz/src/wrap-config.ts:134-149 | Along any chain the allowed names only shrink. |
| Refresh.ChainLists | packages/mcp-authz/src/wrap-config.ts:229-232 | After a refresh every allowed name is in the record. |
| Refresh.WrittenIsAccepted | packages/mcp-authz/src/wrap-config.ts:340-349 | The reader accepts what the writer wrote, whatever was there before. |
| Refresh.WithoutARecordNothingIsAllowed | packages/mcp-authz/src/wrap-config.ts:119-147 | Over a config without a record nothing is allowed. |
| Refresh.FileAllowsTheChosen | packages/mcp-authz/src/wrap-config.ts:148-178 | The file reads back as exactly the tools chosen, so the chain of configs is the chain of files. |
| Refresh.InstructionsLabelLetsAChangeThrough | packages/mcp-authz/src/wrap-config.ts:229-232 | Such a discovery: a tool named `server:instructions` beside changed instructions. |
| Openapi.RecordOperations | packages/mcp-authz/src/openapi.ts:66-99 | The nested loops return every described operation, or refuse if and only if one has no id or an id repeats. |
| Openapi.OperationsAreDescribed | packages/mcp-authz/src/openapi.ts:70-96 | What is recorded is exactly what the document describes. |
| Openapi.IdsAreOneToOne | packages/mcp-authz/src/openapi.ts:86-93 | In an accepted document ids and (method, path) pairs are one to one. |
| Openapi.FilterDocument | packages/mcp-authz/src/openapi.ts:109-139 | The loops compute the specified filtered document. |
| Openapi.FilteredDescribes | packages/mcp-authz/src/openapi.ts:101-139 | The filtered document describes exactly the described operations the caller may use. |
| Openapi.FilteredEntriesAre | packages/mcp-authz/src/openapi.ts:109-139 | Of a path's entries a caller is left those that are no operation and the operations the caller may use. |
| Openapi.MatchIsBySegment | packages/mcp-authz/src/openapi.ts:411-425 | The compiled pattern matches if and only if the segments do one by one, a whole-segment `{x}` taking one non-empty segment. |
| Openapi.VariableIs | packages/mcp-authz/src/openapi.ts:417-425 | A segment is a variable if and only if it is a name without braces, in braces. |
| Openapi.PlainPathAnswersItself | packages/mcp-authz/src/openapi.ts:417-425 | A path without template marks answers itself alone. |
| Openapi.DispatchIsFirst | packages/mcp-authz/src/openapi.ts:302-303 | Dispatch takes the first route, in sorted order, that answers. |
| Openapi.DispatchIsClosest | packages/mcp-authz/src/openapi.ts:243-303 | What is dispatched has the fewest opening braces among the described operations that answer, and is the longest at a tie; nothing is, if and only if none answers. |
| Openapi.ServedExactly | packages/mcp-authz/src/openapi.ts:243-324 | What is served is such an operation, and permitted; a request goes unserved only when it asks for the document, nothing described answers, or such an operation is not permitted. |
| Openapi.ServedIsOffered | packages/mcp-authz/src/openapi.ts:297-324 | Whatever passes upstream is an operation the caller's own filtered document contains. |
| Openapi.OfferedIsServed | packages/mcp-authz/src/openapi.ts:243-303 | Asking for the own path of an offered operation on a plain path reaches that operation, whatever the document order, if and only if the path arrives as written (a request's pathname is percent-encoded) and is not the document's own. |
| Proxy.Authorize | packages/mcp-authz/src/proxy.ts:482-547 | Over a record that anything may happen to between asking it and reading it: forwarded exactly when passed through, or everything reached is permitted, approved at the end and its arguments accepted; then everything the message can touch is guarded, and a call's arguments are accepted by the definition recorded under its name or, failing that, the prefixed one. Unknown methods, and only those, are not found. |
| Proxy.PermittedExactly | packages/mcp-authz/src/proxy.ts:513-533 | Who may reach a capability: whoever holds the price under its own label, or a tool's under the prefixed one when its own has none, and for an address every price that covers it. |
| Proxy.MalformedExactly | packages/mcp-authz/src/proxy.ts:549-581 | A message is refused as malformed if and only if what it should name is missing. |
| Proxy.PassThroughTouchesNothing | packages/mcp-authz/src/proxy.ts:482-500 | No method that is passed through can touch a capability. |
| Proxy.CoveringMeans | packages/mcp-authz/src/proxy.ts:583-591 | An address is covered by the resources registered at it and, unless it still holds braces, by the templates that match it. |
| Proxy.Price | packages/mcp-authz/src/proxy.ts:513-538 | The pricing loop: all permitted, and then exactly the labels of everything reached. |
| Proxy.ReachIsTouch | packages/mcp-authz/src/proxy.ts:549-581 | The targets computed are exactly the capabilities the message can touch, subscriptions and completions included. |
| Proxy.ForwardedIsPricedAndApproved | packages/mcp-authz/src/proxy.ts:507-547 | Every capability a priced and approved message can touch is priced, every covering price is held, and every recorded definition behind it is trusted. |
| Proxy.BuildResourceIndex | packages/mcp-authz/src/proxy.ts:760-806 | The loop builds plain addresses before templates, each in map order; refused if and only if a priced resource has no address or an address no price. |
| Proxy.PricedResourcesAreGuarded | packages/mcp-authz/src/proxy.ts:583-591 | Who may read an address holds the price of every resource in the price map whose address covers it. |
| Proxy.FilterListing | packages/mcp-authz/src/proxy.ts:844-869 | Every item of a listing is held to the record, then permissions decide; what is shown and what the record has seen are both exact. |
| Proxy.ShownAre | packages/mcp-authz/src/catalogue.ts:6-18 | Shown if and only if listed, matching its record, priced and permitted. |
| Proxy.ShownExactly | packages/mcp-authz/src/proxy.ts:844-869 | The same, spelled out: the recorded definition up to key order, and a price the caller holds under the label of its kind. |
| Proxy.ShownResourceIsPriced | packages/mcp-authz/src/catalogue.ts:6-18 | A resource shown is an entry of the index of priced resources, at a price the caller holds. |
| Proxy.ListingIsLast | packages/mcp-authz/src/proxy.ts:860-865 | After a listing, the last thing known of a name is what the last item of that name said, or what was known before if there is none. |
| Proxy.ShownToolCanBeCalled | packages/mcp-authz/src/ladder.ts:90-110 | A tool shown passes pricing; the record then approves its calls if and only if, for its name and for its prefixed name, there is no record, or the last item listed under it matched less than sixty seconds ago, or none was listed and it was trusted before. |
| Proxy.ShownPromptCanBeFetched | packages/mcp-authz/src/ladder.ts:90-110 | A prompt shown passes pricing; the record then approves it, fetched or completed, if and only if the last item listed under its name matched less than sixty seconds ago. |
| Proxy.SecondRecordStaysRefused | packages/mcp-authz/src/proxy.ts:534-536 | A tool recorded under its prefixed label is refused after any number of listings, of any kind, none of which lists a tool of that very name. |
| Proxy.PrefixedPriceIsUseless | packages/mcp-authz/src/catalogue.ts:13-15 | So a tool priced only under the prefixed label is never shown, and never callable unless a tool of that very name is listed. |
| Proxy.BootedIsVouched | packages/mcp-authz/src/proxy.ts:117-130 | With the boot check, that every priced label has a definition, guarded means that every priced definition behind a capability is trusted outright. |
| Audit.Guard | packages/mcp-authz/src/tools.ts:246-339 | The call as it runs, for every behaviour of sink, listener, approver and handler, throwing or not, and throwing what can be put into words or not: its attempt, its question, its handler and its ending, and the handler's own answer. |
| Audit.Ask | packages/mcp-authz/src/tools.ts:278-311 | Waiting for consent: refused, recorded and named, or approved. |
| Audit.DeliverTerminal | packages/mcp-authz/src/tools.ts:341-359 | The delivery with its two nested catches, as awaiting and throwing mean it. |
| Audit.DeliveryReturns | packages/mcp-authz/src/tools.ts:341-359 | Whatever the sink and the error listener throw, delivering a terminal event returns. |
| Audit.AttemptedEndsOnce | packages/mcp-authz/src/tools.ts:313-338 | The success event is written inside the `try`, whose catch would write a second ending: it never reaches it. Only a handler that throws what cannot be put into words leaves no ending, and another error. |
| Audit.WrittenIs | packages/mcp-authz/src/tools.ts:259-389 | With a sink, an attempt and then exactly one ending; only the attempt if and only if it is rejected, no decision can be read from the approver, or the handler throws what cannot be put into words. |
| Audit.EndingSays | packages/mcp-authz/src/tools.ts:278-338 | The last event is a success if and only if the handler ran and returned, a failure if and only if it ran and threw, with its message, and a refusal otherwise, with its reason; an asked call ran if and only if somebody approved under a name that is not blank, and is recorded in that name. |
| Audit.SomeCallsNeverEnd | packages/mcp-authz/src/tools.ts:337-385 | Such calls, one of each kind, and the errors they answer with. |
| Audit.HandlerRunsOnceAfterConsent | packages/mcp-authz/src/tools.ts:259-339 | The handler runs if and only if the attempt was recorded and any question answered by a named approval; each effect at most once and in order. |
| Audit.ReportedIs | packages/mcp-authz/src/tools.ts:341-359 | Exactly a rejected ending is reported, to the listener, with what it throws swallowed. |
| Audit.RecordingNeverChangesTheAnswer | packages/mcp-authz/src/tools.ts:313-359 | Once the handler runs, the call answers as the handler does and writes its ending, whatever any sink and listener throw. |
| Audit.TerminalAudit.Finish | packages/mcp-authz/src/proxy.ts:608-626 | Writes at most once. |
| Audit.TerminalAudit.Observe | packages/mcp-authz/src/proxy.ts:633-664 | Over every order of reads, failures and cancelling, the log is the first ending's verdict and nothing else. |
| Audit.SuccessMeansReadWhole | packages/mcp-authz/src/proxy.ts:628-664 | A success is on record if and only if the status was one and the answer was read to its end before anything failed or was cancelled. |
| Audit.VerdictIs | packages/mcp-authz/src/proxy.ts:640-658 | The first signal that is no chunk decides: the status at the end, the reason of a failure, or that the client left. |
| Policy.StringList | packages/mcp-authz/src/policy.ts:260-273 | Refused if and only if an entry is no non-empty string; otherwise each entry once, where it first stood. |
| Policy.DistinctIs | packages/mcp-authz/src/policy.ts:266-271 | No repeats, and the same entries. |
| Policy.DistinctKeeps | packages/mcp-authz/src/policy.ts:242-243 | A second pass changes nothing. |
| Policy.CanMeans | packages/mcp-authz/src/policy.ts:182-187 | A permission is held if and only if no matching rule denies and some matching rule names a role carrying it or `*`. |
| Policy.MatchesMeans | packages/mcp-authz/src/policy.ts:309-341 | Whom a rule picks out: every condition set must hold, an address only when verified, and a domain only of such an address, as its issuer says or as it follows the last `@`. |
| Policy.UnverifiedHoldsNothing | packages/mcp-authz/src/policy.ts:309-335 | Where every rule asks for an address or a domain, an unverified identity holds nothing. |
| Policy.PermissionsHeld | packages/mcp-authz/src/policy.ts:182-187 | The listed permissions, likewise, without the wildcard reading. |
| Policy.OrderNeverDecides | packages/mcp-authz/src/policy.ts:182-187 | Permuting or repeating rules changes no permission. |
| Policy.AddedRule | packages/mcp-authz/src/policy.ts:182-187 | A granting rule only adds; a denying one only takes, and takes everything where it matches. |
| Policy.Reconcile | packages/mcp-authz/src/policy.ts:372-388 | The loops report exactly the unreachable requirements, in order, and the granted permissions nothing requires, with who grants them. |
| Policy.NoErrorMeansEveryRequirementIsUsable | packages/mcp-authz/src/policy.ts:382-398 | No error if and only if each required permission is usable by a holder of some single role. |

## Left out

- EventStream.FilterEventStream: starts after byte decoding and byte-order-mark removal. Both twins strip the mark from the first chunk only, so a mark cut by a chunk edge is chunk dependent and nothing is claimed there. A character is a Unicode scalar with its UTF-8 length.
- EventStream.EventStream.Flush: the decoder's last characters are a parameter; the source does not count them in the held bytes, and neither does the model.
- DuplicateKeys.HasDuplicateKey: takes the tree the text was printed from, because the source calls it only on text `JSON.parse` accepted. Names are compared as UTF-16 units; raw lone surrogates in the text are not modelled.
- Definitions.SameDecidesEqual: numbers are carried as the text `String` gives them, so -0 and 0 are one value; integer-like keys, which JavaScript enumerates first, and inherited property names are not modelled.
- WrapConfig.ConfigRoundTrip: the fixed comment lines are parameters (any one-line texts), and the working directory is a string.
- WrapSafety.ListingIsFiltered: entries without string names are not modelled; ids are strings, numbers or null. Logging, token counts and the listing report are not modelled.
- UpstreamRecord.PythonRecord.ReadEnd: the lock around a reading is taken as given; a reading is stamped when it completes, as the code does.
- Proxy.ShownAre: a resource listing is covered, but that a listed resource can be read is not claimed, since a stricter pattern may cover its address.
- Audit.Guard: one call on its own; a sink or listener decides by the event alone; timestamps, durations and the identity fields copied into every event are not modelled, and an approver's name that is not a string counts as none.
- Policy.CanMeans: case folding and the claim lookup of `policy.ts` (lines 343-351) are not modelled, but functions of the identity; validation errors of a malformed policy are not modelled beyond the string lists.
- Audit.TerminalAudit.Observe: the reason a read failed is a string; that a body can fail with a value that no string stands for is modelled for guarded calls only.
- Openapi.OfferedIsServed: the spelling of a path in a request is a parameter; templated paths can still be shadowed by another template of equal rank, so only plain paths are claimed.
- `JSON.parse`, `JSON.stringify` of a filtered payload, JSON schema validation, URI template matching and rounding to a double are parameters of the theorems that use them.
- The Python event filter and policy, gate, server and OpenAPI modules repeat the TypeScript ones.
- Liveness when a server never answers a listing or pages for ever: the code promises nothing there.
- Token verification, OAuth metadata, discovery, sign-in, HTTP and ASGI plumbing, process spawning and shutdown, the command line, token estimates, suspicious-text lists and result screening: I/O, cryptography or presentation.
