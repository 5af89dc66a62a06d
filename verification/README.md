# SessLint: what its core does, proved

SessLint reads, repairs, compares and seals session transcripts of coding agents. This project models the part of
it that everything else trusts, and proves what that part promises.

Each file holds the module of its name. One small theory carries the rest: the JSON grammar of RFC 8259 as
derivation trees (`JsonGrammar`, `NumberTokens`, `NonAscii`), UTF-8 as in RFC 3629 (`Utf8`), and Python's view of
JSON: values, printer, parsers, their round trips and the locality of parsing (`PyText`, `JsonValues`, `JsonPrinter`,
`CanonicalText`, `OrderedJson`, `JsonParser`, `AsciiStrings`, `StrictJson`, `StrictText`, `JsonRoundTrip`,
`JsonLocality`, `PrintedJson`, `ParsedGrammar`). Four components are built on it.

* **Torn records and the streaming reader** (`TornRecord`, `PrefixFree`, `TornAppend`, `CutBytes`, `Depth`,
  `Framing`, `StreamReader`, `ReaderProperties`, `ReaderItems`, `ReadBack`, `Chunks`). The hand-written pushdown
  automaton decides exactly which texts are proper prefixes of a JSON object; at byte level it accepts every cut of a
  record and no complete JSON value, and errs on one exactly described kind of input; the framing loop finds exactly
  the physical lines, and only the last of them can be reported as torn; what the program writes, the reader reads.
* **The hash-chain ledger** (`PyLines`, `Seal`, `SealStamp`, `SealChain`, `SealCrash`, `SealRuns`, `SealFaults`,
  `SealVerdicts`). What a verified chain means, what each kind of divergence means, which tampering it shows, what a
  crash at any byte of an append leaves behind, what any interleaving of writers under the lock keeps, and where the
  functions fail their callers.
* **Sessions and their identity** (`Decimals`, `Timestamps`, `ClockText`, `SessionModel`, `SessionMeaning`,
  `SessionDocuments`, `SessionRoundTrip`, `SessionFaults`, `Identity`). Which records, files and documents are accepted
  and what they are read as; parsing and dumping undo each other; the content identity bytes and the re-parse hashes
  are complete invariants of stated equivalences.
* **The structural diff** (`DiffMatching`, `Diff`, `DiffEvents`). A two-pass matching, what its deltas mean, when
  there are none, and when the comparison raises.

Smaller members: salvage of a cut index (`IndexSalvage`, `IndexDocument`), conditional blocks of the manifest
templates (`Conditionals`), and atomic publication as a stepped protocol with an adversary (`AtomicWrite`).

## How to read the model

* Python code that computes by expressions is a function; a loop that updates variables is a method with
  invariants, proved equal to a specification function or against a property; an object with mutable fields is a
  class (`Seal.Ledger`, `Framing.LineSource`). Protocols over several processes are relations on states.
* A Python string is `PyStr`, a sequence of code points, because a JSON escape may leave a lone surrogate; text
  that has been decoded from UTF-8 is a Dafny `string`.
* SHA-256 is a function parameter. It is never assumed to be injective: theorems that need it assume that no two of
  the preimages at hand collide (`Identity.CollisionFree`, `DiffEvents.NoCollision`, `SealChain.NoCollision`).
* A Python float is the token its `repr` writes; how the platform reads a token is the parameter `FloatReader`,
  lawful when a `repr` reads back as itself. The clock is the stamp of the request, and `SealStamp.Stamp` is how
  `build_entry` makes it of a `datetime`; the privacy filter of the diff is the parameter `safe`.
* A raised exception is `None`, or a named outcome where callers tell exceptions apart.
* A function that follows the code check by check has a lemma beside it, named `...Is`, `...Iff`, `...Means` or
  `...Says`, that states what it decides without the order of its checks.

## What the code does that its documentation does not say

* A `tool` that is a list or an object makes `verify_lines` raise `TypeError` instead of reporting a divergence.
  `SealFaults.RaisesIff` says exactly on which ledgers, `SealFaults.RaisingAfter` shows one line that does it behind
  any intact ledger.
* In the same way `actor`, `kind`, `execution_state` or a lifted `side_effects` that is a list or an object makes
  the event parser raise `TypeError`, which `_process_line` does not catch: the reader stops there instead of
  reporting SL001. `ReaderProperties.TypeErrorIff` says exactly on which files, `ReadBack.EscapingFile` shows one.
* `build_entry` accepts any `now`, but the ledger accepts the appended line if and only if the moment is in UTC
  (`SealFaults.AppendVerifiesUtc`, `SealStamp.StampIsSealedIff`). `SealFaults.EasternAppend` shows a request that is
  accepted and written on every intact ledger, and after which the ledger refuses every append.
* `is_torn_append` also accepts some lines that nothing completes to an object, even without their byte-order mark and
  NUL padding: those that stop inside a character where none outside ASCII may stand, and no others
  (`CutBytes.TornIff`); half a character after `{` is one (`CutBytes.HalfAfterBrace`).
* The tag of the encoding probe depends on how the stream is chunked if and only if bytes that are not UTF-8 precede
  the first NUL (`Chunks.TagDependsIff`); its silence never does (`Chunks.ProbeNoneIff`).
* The salvage of a cut index reads the list at the first bracket behind the first `"entries"`. That is the list of the
  document if and only if this marker precedes it with no other bracket in between (`IndexDocument.FindsIff`); a
  nested `entries` in front makes salvage report an entry the document does not list (`IndexDocument.NestedFirst`).
* The parser accepts strings with lone surrogates and non-finite floats that `dump_session` cannot write;
  `SessionRoundTrip.ParsedSessionRoundTrip` gives the condition and `SessionFaults.SurrogateSession` such a file.
* `dump_session` drops session-level extras, so a framed document survives it if and only if it has none
  (`SessionRoundTrip.DocumentRoundTrip`); `SessionFaults.FramedSession` is an accepted one that has some.
* The parser's limit on payload depth and the reader's limit on record depth are counted from different levels: a
  record the parser accepts at its limit is too deep for a reader with the same limit (`ReadBack.DeepEventUnread`).

## Model

| member | source | states |
|---|---|---|
| NumberTokens.NumberPattern | src/sesslint/io.py:670-672 | the full-match number pattern accepts exactly the number grammar of RFC 8259 section 6 |
| NumberTokens.CutPattern | src/sesslint/io.py:673-675 | the cut-number pattern, as written with its nested options, is what the automaton accepts |
| NumberTokens.CutIsPrefix | src/sesslint/io.py:673-675 | the cut-number pattern accepts exactly the texts that some continuation completes to a number |
| TornRecord.SkipStringPast | src/sesslint/io.py:679-687 | a string scan that ends past the token has consumed exactly one JSON string |
| TornRecord.SkipStringCut | src/sesslint/io.py:679-687 | a string scan that answers "cut" leaves a text that some continuation closes |
| TornRecord.SkipStringBad | src/sesslint/io.py:679-687 | a string scan that answers "bad" leaves a text that no continuation makes a string |
| TornRecord.SkipLiteralIs | src/sesslint/io.py:698-703 | the literal loop ends past, cuts or rejects exactly as the text is a literal, a proper prefix of one, or neither |
| TornRecord.OpenScalar | src/sesslint/io.py:690-703 | a scalar scan that answers "cut" leaves a text some continuation completes |
| TornRecord.StuckScalar | src/sesslint/io.py:690-703 | a scalar scan that answers "bad" leaves a text no continuation completes |
| TornRecord.MoveScalar | src/sesslint/io.py:690-703 | a scalar scan that ends past its token keeps exactly the viable continuations |
| TornRecord.TurnRight | src/sesslint/io.py:720-771 | every turn of the loop, in every state and under every stack of closers, keeps the set of viable continuations, or decides rightly |
| TornRecord.Completion | src/sesslint/io.py:706-771 | from every reachable state some continuation exists, at any nesting depth |
| TornRecord.IsCutJsonObject | src/sesslint/io.py:706-771 | True if and only if the text is not blank and some non-empty continuation turns it into optional whitespace and one JSON object |
| PrefixFree.ObjectsArePrefixFree | src/sesslint/io.py:706-771 | no JSON object is a proper prefix of another |
| PrefixFree.ObjectIsFinal | src/sesslint/io.py:706-771 | a complete object, padded or followed by anything, is never a prefix of a padded object |
| PrefixFree.CompleteIsNotCut | src/sesslint/io.py:774-802 | no complete JSON text is a cut object |
| Utf8.RoundTrip | src/sesslint/io.py:793-799 | decoding an encoded text gives it back (RFC 3629 section 3) |
| Utf8.EncodeDecoded | src/sesslint/io.py:793-799 | valid bytes are the encoding of their decoded text |
| Utf8.DecodePrefix | src/sesslint/io.py:793-799 | a cut of valid bytes is never invalid, and decodes to the characters before the cut |
| TornAppend.IsTornAppend | src/sesslint/io.py:774-802 | the method decides the torn-append predicate: no LF, no interior NUL, no invalid UTF-8 before the end, blank or a cut object |
| TornAppend.StripIs | src/sesslint/io.py:789-790 | what is tested of a line is what stands behind its byte-order mark, where that is stripped, and in front of the NULs at its end |
| TornAppend.ProperPrefixIsTorn | src/sesslint/io.py:774-802 | every proper prefix of a JSON object's bytes, cut anywhere and padded with NULs, is torn unless it ends in LF |
| TornAppend.CompleteIsNotTorn | src/sesslint/io.py:774-802 | no complete JSON value, padded with NULs or not, behind a byte-order mark or not, is torn |
| NonAscii.PaddedAlike | src/sesslint/io.py:679-687 | characters outside ASCII are interchangeable in a JSON object, wherever they stand |
| NonAscii.Interchange | src/sesslint/io.py:706-771 | whether a text may go on with a character outside ASCII does not depend on which one |
| CutBytes.WholeCharacters | src/sesslint/io.py:774-802 | bytes that decode to the end, behind the stripped mark and in front of the stripped NULs, are torn if and only if some more bytes complete them to an object |
| CutBytes.HalfCharacter | src/sesslint/io.py:793-799 | bytes that stop inside a character can be completed if and only if the text before may go on with a character outside ASCII |
| CutBytes.TornIff | src/sesslint/io.py:774-802 | any line, with or without stripping: torn if and only if it does not end in LF and what stripping leaves either can be completed to an object or stops inside a character where none outside ASCII may stand, never both |
| CutBytes.HalfAfterBrace | src/sesslint/io.py:793-799 | half a character after an opening brace is such a line: torn, and nothing completes it |
| PyText.SortedUnique | src/sesslint/_canonical_codec.py:94-100 | a set of keys has only one strictly sorted order |
| PyText.LessIs | src/sesslint/_canonical_codec.py:94-100 | of two keys the one stands first that ends, or has the smaller code point, where they first differ |
| OrderedJson.InsertionOrderIrrelevant | src/sesslint/_canonical_codec.py:94-100 | the canonical text depends on the value alone, whatever the insertion orders of its dictionaries at every depth |
| CanonicalText.ObjectText | src/sesslint/_canonical_codec.py:94-100 | an object's canonical text is a brace, its members with single commas between them and no whitespace, a brace: each name once, in ascending order of code points |
| CanonicalText.SmallerNameFirst | src/sesslint/_canonical_codec.py:94-100 | of two names of an object, the one with the smaller code point where they first differ stands first in the text |
| CanonicalText.ArrayText | src/sesslint/_canonical_codec.py:94-100 | an array's canonical text is a bracket, its items in order with single commas between them, a bracket |
| CanonicalText.EscapeShortest | src/sesslint/_canonical_codec.py:94-100 | no string token that decodes to a text is shorter than the canonical one, so nothing is escaped that need not be |
| CanonicalText.EscapeCharOnly | src/sesslint/_canonical_codec.py:94-100 | of the shortest forms of a character the canonical one is the only one without upper-case hex digits |
| CanonicalText.IntTextOnly | src/sesslint/_canonical_codec.py:94-100 | an integer has one number token, its canonical one, but for the minus sign zero may carry |
| JsonRoundTrip.ParsePrinted | src/sesslint/_canonical_codec.py:94-100 | parsing a printed value in front of any delimiter gives the value and what follows |
| JsonRoundTrip.LoadsPrinted | src/sesslint/_canonical_codec.py:83-110 | loading the canonical text of any encodable value gives the value back |
| JsonRoundTrip.CanonicalInjective | src/sesslint/_canonical_codec.py:83-110 | equal canonical bytes mean equal values |
| JsonRoundTrip.LoadsLawful | src/sesslint/canonical.py:694-705 | every loaded value holds only floats that print as they were read |
| JsonRoundTrip.ParseStable | src/sesslint/indexes.py:153-161 | text after a finished value does not change its parse |
| JsonRoundTrip.CutObjectFails | src/sesslint/io.py:1004-1016 | the canonical text of an object, cut anywhere, does not load |
| StrictJson.StrictLoadsPrinted | src/sesslint/io.py:462-503 | the strict decoder accepts every canonical text and returns its value |
| StrictText.StrictMeans | src/sesslint/io.py:275-300 | the strict decoder gives a value if and only if the plain one does, no `NaN`, infinity or overflowing float begins outside the strings of the text, even under a name repeated later, and the value holds no lone surrogate |
| StrictText.StrictEncodable | src/sesslint/io.py:462-503 | whatever the strict decoder gives has canonical bytes |
| AsciiStrings.AsciiRoundTrip | src/sesslint/io.py:462-503 | a text written with an escape for every UTF-16 unit, in either case of hex digits, is read back |
| ParsedGrammar.LoadsGrammar | src/sesslint/io.py:462-503 | a text that decodes, numbers that are not finite apart, is one value of the RFC 8259 grammar with whitespace around it, an object if and only if it decodes to one |
| JsonLocality.ParseLocal | src/sesslint/indexes.py:153-161 | a parse depends on nothing behind what it consumes |
| PrintedJson.CanonicalIsJson | src/sesslint/_canonical_codec.py:94-100 | the canonical text of a value is a text of the RFC 8259 grammar, of an object a JSON object |
| Depth.ValidateIsWithin | src/sesslint/canonical.py:194-223 | the recursive validation at a level accepts exactly the values whose nesting depth fits what is left |
| Depth.CheckNestingDepth | src/sesslint/io.py:386-406 | the explicit-stack check is True if and only if the 1-based recursive depth is at most the limit |
| Depth.ParseSpends | src/sesslint/io.py:1041-1043 | a parse builds no more levels than the brackets it consumes |
| Depth.PrefilterSound | src/sesslint/io.py:1041-1043 | a text with at most `m` brackets decodes to a value of depth at most `m` |
| Depth.DepthAccepted | src/sesslint/io.py:1041-1056 | the bracket prefilter never changes the verdict of the depth check |
| Framing.LineSource.ReadMapped | src/sesslint/io.py:214-237 | reads to the next newline or the cap, whichever is first, and moves exactly that far |
| Framing.LineSource.ReadBuffered | src/sesslint/io.py:200-203 | the buffered source does the same, byte by byte |
| Framing.LineSource.Readline | src/sesslint/io.py:1305-1309 | both byte sources refine one `readline` specification |
| Framing.NextLine | src/sesslint/io.py:1305-1312 | a line's end is the start of the next one, one line feed further, and no line starts in between |
| Framing.KeptIs | src/sesslint/io.py:1339-1342 | a line is kept if and only if it is over the limit or holds a byte other than the six of ASCII whitespace |
| Framing.FrameRefinesSplit | src/sesslint/io.py:1305-1353 | the records are exactly the physical lines that are over the limit or not blank, with exact line numbers, byte ranges, ordinals 1, 2, 3 and so on, in order and without overlap |
| StreamReader.DecodeDefectCode | src/sesslint/io.py:805-818 | SL002 if and only if the line is terminal, within the limit and torn |
| StreamReader.ProcessLine | src/sesslint/io.py:901-1087 | every line gives exactly one of: event, consumed header, finding with its code, escaping `TypeError` |
| ReaderItems.EventItemIff | src/sesslint/io.py:1004-1087 | a line gives an event if and only if it was read whole and its NUL-free UTF-8 text is a finite, well-formed object within the depth limit that is not header-like on the first record and says what the event says |
| ReaderItems.HeaderItemIff | src/sesslint/io.py:1057-1068 | a line gives the header if and only if it is the first record, holds such an object with `schema_version` or `session_id`, and says what the header says |
| ReaderItems.EscapedItemIff | src/sesslint/io.py:1069-1087 | a line lets a `TypeError` escape if and only if it holds such a record and the first check on it that does not pass is one that raises |
| ReaderItems.FindingItemIff | src/sesslint/io.py:805-818 | every other line is a finding on itself: SL002 if and only if it is the last one, was read whole and is torn |
| ReaderItems.RecordNotTorn | src/sesslint/io.py:774-802 | a line the reader decodes is never torn |
| ReaderItems.RunEncodable | src/sesslint/io.py:1295-1418 | every event and header a run gives is one that `dump_session` can write |
| StreamReader.Drain | src/sesslint/io.py:1319-1334 | draining stops exactly at the end of the over-long line, or when the file is too large |
| StreamReader.IterEvents | src/sesslint/io.py:1295-1418 | for any bytes, limits and byte source the items are those of the framed records in order, the last alone terminal, up to the limit or the `TypeError` that stops the run, with the outcome that cause gives |
| ReaderProperties.RunUnique | src/sesslint/io.py:1295-1418 | the contract of the loop fixes the items and the outcome of every file |
| ReaderProperties.TypeErrorIff | src/sesslint/io.py:1069-1087 | within the limits a `TypeError` escapes if and only if some record decodes to an object within the depth limit, is not a first header-like record, and has a list or an object where the parser tests a string |
| ReaderProperties.FinishedIff | src/sesslint/io.py:1379-1415 | a run ends normally if and only if the file is within the size limit, has at least one and not too many records, and none of them raises; a file without records is reported as such |
| ReadBack.EscapingFile | src/sesslint/canonical.py:523-526 | a file of one event record whose `actor` is a list makes the reader raise, under any limits that admit it |
| ReadBack.DepthIff | src/sesslint/io.py:1041-1056 | a record fits the reader's depth limit if and only if its payload and its extras fit one level less |
| ReadBack.DeepEventUnread | src/sesslint/canonical.py:194-205 | the parser takes payloads up to its limit, the reader with the same limit one level less |
| ReadBack.ReadDumped | src/sesslint/canonical.py:754-760 | reading the bytes of a dumped session gives the header and every event in order and ends normally, but for records deeper than the reader's limit |
| ReaderProperties.TornOnlyAtEnd | src/sesslint/io.py:805-818 | an SL002 is about the last record, is unterminated, and its range ends at the end of the file; so there is at most one |
| ReaderProperties.CompleteRecordKept | src/sesslint/io.py:774-818 | a line holding a complete JSON value is never reported as SL002 |
| ReaderProperties.CutAppendReported | src/sesslint/io.py:901-1087 | a file whose last append of a canonical record stopped at any byte, with any NUL padding, is reported as SL002 on exactly those bytes |
| Chunks.ProbeStreamEncoding | src/sesslint/io.py:129-152 | the loop with its incremental decoder computes the probe of the chunk list |
| Chunks.ProbeNoneIff | src/sesslint/io.py:129-152 | silent if and only if the whole stream is NUL-free UTF-8, however it is split |
| Chunks.ProbeIs | src/sesslint/io.py:129-152 | the tag of any chunking, from the bytes and from where the chunk with the first NUL starts |
| Chunks.TagIs | src/sesslint/io.py:129-152 | unless bytes that are not UTF-8 precede the first NUL, the tag is a function of the stream |
| Chunks.TagDependsIff | src/sesslint/io.py:129-152 | two chunkings of a stream get different tags if and only if bytes that are not UTF-8 precede its first NUL |
| Chunks.SplitConcat | src/sesslint/bundle.py:184-190 | splitting across a chunk boundary joins the last segment of the one and the first of the other |
| Chunks.HasInkIs | src/sesslint/bundle.py:184-196 | a fragment is not empty if and only if it has a byte other than space, tab and CR |
| Chunks.CountRecordsBounded | src/sesslint/bundle.py:173-196 | the count is the number of LF-separated segments of the whole file with a byte outside space, tab and CR, for every chunking |
| Seal.FileLines | src/sesslint/seal.py:157-171 | the lines verified are those of the file that are not blank, in order, with the numbers they have among all lines |
| Seal.VerifyLines | src/sesslint/seal.py:213-279 | the loop computes the verdict of the line list: intact, the first divergence with its kind and line, or an escaping `TypeError` |
| SealVerdicts.ShapeIff | src/sesslint/seal.py:174-210 | the ordered shape checks accept exactly the entries of the schema; they report `bad-schema` for an object without the schema id and `malformed-line` for every other defect but the one that raises |
| SealVerdicts.IntactMeans | src/sesslint/seal.py:213-279 | intact if and only if every line decodes to an entry of the schema with its own number, the digest of the line before, and the digest of its other fields' canonical bytes |
| SealVerdicts.DivergesMeans | src/sesslint/seal.py:213-279 | a kind, line and number are reported if and only if all lines before are good and the line is bad in just that way: wrong number, wrong link behind the right number, wrong digest behind both, or malformed |
| SealVerdicts.EditDetected | src/sesslint/seal.py:268-277 | an entry edited with its number, link and digest kept is reported at its own line as `hash-mismatch`, or as malformed when it has no canonical bytes, unless the contents collide |
| SealVerdicts.ResealDetected | src/sesslint/seal.py:252-258 | an entry edited and given its new digest is reported at the next line as `chain-break`; the last entry alone can be replaced so |
| Seal.Ledger.Append | src/sesslint/seal.py:372-432 | an append adds exactly the planned bytes or leaves the file as it is |
| SealChain.IntactIff | src/sesslint/seal.py:213-279 | a ledger is intact if and only if every line is a well-shaped entry with its own number, the previous digest and its own digest |
| SealChain.DivergencePoint | src/sesslint/seal.py:213-279 | a reported divergence is at the first line that does not link, and the lines before it verify by themselves |
| SealChain.VerifyConcat | src/sesslint/seal.py:213-279 | verifying more lines continues from the digest and number the first ones end with |
| SealChain.EntryFacts | src/sesslint/seal.py:174-210 | in an intact ledger entry `n` has number `n`, a valid shape, and the digest of its other fields |
| SealChain.LastDigestDecides | src/sesslint/seal.py:83-95 | two intact ledgers with the same last digest have the same length and equal entries throughout |
| SealChain.DeletionDetected | src/sesslint/seal.py:213-279 | deleting any entry but the last from the lines of the file is reported as a sequence gap at the line that now holds the next entry |
| SealChain.SwapDetected | src/sesslint/seal.py:213-279 | swapping any two entries in the lines of the file is reported as a sequence gap at the earlier of the two lines |
| SealChain.PrefixIntact | src/sesslint/seal.py:282-299 | whole lines cut off the end leave an intact ledger |
| SealFaults.RaisesIff | src/sesslint/seal.py:174-210 | `verify_lines` raises if and only if behind some intact lines there is one with good digests, number and link whose `tool` is a list or an object |
| SealFaults.RaisingAfter | src/sesslint/seal.py:192-193 | there is a line that makes it raise behind any intact ledger |
| SealFaults.AppendRaisesIff | src/sesslint/seal.py:372-432 | an append raises for no other reason |
| SealFaults.AppendWritesIff | src/sesslint/seal.py:98-154 | an append is written if and only if the ledger verifies, the request is in the closed vocabulary without lone surrogates, and another ledger is bound by a first entry only |
| SealCrash.BuiltShape | src/sesslint/seal.py:98-154 | a built entry passes the ledger's own shape check exactly when its stamp does |
| SealCrash.BuiltFacts | src/sesslint/seal.py:98-154 | a built entry holds its own digest, its number and the previous digest |
| SealCrash.PrintNoControl | src/sesslint/seal.py:411-422 | canonical text holds no control character, so an entry is one line |
| SealCrash.CrashTrichotomy | src/sesslint/seal.py:384-432 | stopped after any byte of its write, an append leaves the old entries, the old and the new one, all old lines with one malformed line behind them, or bytes that are not UTF-8 |
| SealCrash.AppendVerifiesIff | src/sesslint/seal.py:136 | a completed append verifies, with exactly one entry more, if and only if its stamp has the ledger's form; with another stamp the old lines are there and the new one is malformed |
| SealStamp.StampIsSealedIff | src/sesslint/seal.py:136 | the stamp of a moment has the ledger's form if and only if the moment is in UTC: a naive one and one with any other offset, even of a microsecond, has not |
| SealStamp.OffsetIs | src/sesslint/seal.py:136 | an offset is written as its sign, hours and minutes, and as its seconds and microseconds where it has any |
| ClockText.StampIsTimestamp | src/sesslint/seal.py:136 | the stamp of a UTC moment that occurs is also a valid timestamp of a session record |
| SealFaults.AppendVerifiesUtc | src/sesslint/seal.py:98-154 | so a completed append verifies if and only if `now` is in UTC, as the default is |
| SealFaults.EasternAppend | src/sesslint/seal.py:136 | a request that is accepted and written on any intact ledger, which then refuses every append |
| SealCrash.BrokenRefuses | src/sesslint/seal.py:388-394 | a ledger broken at its last line or not UTF-8 is never extended again |
| SealRuns.EmptyFileGood | src/sesslint/seal.py:384-398 | an absent ledger is an intact one without entries, so runs may start there |
| SealRuns.LockedStep | src/sesslint/seal.py:384-412 | under the lock a writer that does not crash begins its write if and only if the append is to be written, and is refused otherwise, the file untouched |
| SealRuns.StepKeepsInv | src/sesslint/seal.py:302-336 | every step of every writer, and every crash, keeps the ledger invariant |
| SealRuns.RunKeepsInv | src/sesslint/seal.py:302-336 | the invariant holds at every moment of every interleaving |
| SealRuns.StepHistory | src/sesslint/seal.py:372-432 | a step changes the committed entries by at most one at the end; a finished append stamped in UTC by exactly one, with another stamp it is the end of the ledger |
| SealRuns.EntriesNeverChange | src/sesslint/seal.py:339-370 | over any run the entries at one moment are a prefix of those at any later good moment |
| SealRuns.GoodWithoutCrashes | src/sesslint/seal.py:339-370 | started on any intact ledger, without crashes and with stamps in UTC the ledger verifies whenever the lock is free |
| SealRuns.FreeLockIsSettled | src/sesslint/seal.py:302-336 | started on any intact ledger, with any requests and crashes, a free lock means a ledger that verifies, begins with the old entries, numbers all 1, 2, 3 and binds no other ledger behind them, or one that still holds a good ledger and refuses every append |
| SealRuns.NoLateGenesis | src/sesslint/seal.py:399-400 | an append behind other entries never carries `genesis_of` |
| SealRuns.CutRun | src/sesslint/seal.py:372-432 | every cut of an append, between two pieces of its write too, is the end of a run with the lock free |
| SealRuns.WholeRun | src/sesslint/seal.py:372-432 | so is the append that nothing interrupts |
| PyLines.SpaceIs | src/sesslint/seal.py:171 | the characters that `strip` removes, by code point |
| SessionModel.ParseSessionLines | src/sesslint/canonical.py:681-710 | the loop over lines, ids seen and events grown, computes the session the lines hold |
| ClockText.TimestampMeans | src/sesslint/canonical.py:168-191 | a timestamp is valid if and only if it is the text of a moment that occurs, a fraction or none, and a zero offset |
| ClockText.YearLength | src/sesslint/canonical.py:181-187 | the months of every year have the days the Gregorian calendar gives the year |
| SessionRoundTrip.ParsedEventIsValid | src/sesslint/canonical.py:472-631 | every accepted event meets the parser's checks, with `side_effects` lifted from the payload where it was absent |
| SessionMeaning.EventMeans | src/sesslint/canonical.py:472-631 | a record is read as an event if and only if it says what the event says, optional fields as they are or missing, side effects declared by record or payload, the rest experimental, and the event is as the format asks |
| SessionMeaning.AcceptedIff | src/sesslint/canonical.py:472-631 | a record is accepted if and only if all checks of the parser, listed in their order, pass |
| SessionMeaning.TypeErrorIs | src/sesslint/canonical.py:523-612 | the parser lets a `TypeError` escape if and only if the first of these checks that does not pass is a set test on a list or an object |
| SessionRoundTrip.TypeErrorRejects | src/sesslint/canonical.py:523-531 | a record that makes the parser raise `TypeError` gives no event |
| SessionRoundTrip.EventRoundTrip | src/sesslint/_canonical_codec.py:172-232 | parsing the normalised dictionary of an accepted event gives the event back |
| SessionRoundTrip.ParsedHeaderIsValid | src/sesslint/canonical.py:398-469 | every accepted header meets the parser's checks |
| SessionDocuments.HeaderMeans | src/sesslint/canonical.py:398-469 | a record is read as a header if and only if it says what the header says and the header is as the format asks |
| SessionRoundTrip.HeaderRoundTrip | src/sesslint/_canonical_codec.py:260-287 | parsing the normalised dictionary of an accepted header gives the header back, empty metadata included |
| SessionRoundTrip.ParsedLinesValid | src/sesslint/canonical.py:681-710 | every session the line parser accepts is valid, its ids distinct |
| SessionDocuments.LinesMean | src/sesslint/canonical.py:681-710 | lines are read as a session if and only if, blank ones apart, all decode, the first is its header, and the others are its events in order with distinct ids |
| SessionRoundTrip.DumpedLines | src/sesslint/canonical.py:754-760 | the LF-split lines of a dumped session are the header text, the event texts and an empty one |
| SessionRoundTrip.DumpThenParse | src/sesslint/canonical.py:754-760 | parsing the LF-split lines of a dumped session gives the session without session-level extras |
| SessionRoundTrip.ParsedSessionRoundTrip | src/sesslint/canonical.py:681-760 | a parsed session can be dumped if and only if its strings are well formed and its floats finite, and is then parsed back unchanged |
| SessionRoundTrip.ParsedDocumentValid | src/sesslint/canonical.py:634-678 | a session accepted from one document, framed or flat, is valid too |
| SessionDocuments.DocumentMeans | src/sesslint/canonical.py:634-678 | a document is read as a session if and only if its list holds the records of the events in order with distinct ids, its header is framed or made of the other fields, and its extras are the experimental ones of a frame |
| SessionDocuments.FramedRoundTrip | src/sesslint/canonical.py:634-678 | the framed document of a valid session is read as that session, extras included |
| SessionDocuments.FlatRoundTrip | src/sesslint/canonical.py:634-678 | the flat one as the session without extras |
| SessionRoundTrip.DocumentRoundTrip | src/sesslint/canonical.py:634-678 | such a session survives dump and parse if and only if it has no session-level extras |
| SessionFaults.SurrogateSession | src/sesslint/canonical.py:681-710 | a line the parser accepts whose session `dump_session` cannot write: a title of one lone surrogate |
| SessionFaults.FramedSession | src/sesslint/canonical.py:634-678 | a document the loader accepts whose session has a session-level extra |
| SessionRoundTrip.NoDocument | src/sesslint/canonical.py:738-748 | a header line followed by event lines is not one JSON document, so the loader falls back to lines |
| SessionRoundTrip.LoadDumped | src/sesslint/canonical.py:713-760 | the file loader reads what the dumper wrote |
| SessionDocuments.LoadMeans | src/sesslint/canonical.py:729-751 | a file is loaded as a session if and only if it is not blank and, when its text is one object with `events`, that document says the session, otherwise its lines do |
| SessionDocuments.LoadFramed | src/sesslint/canonical.py:729-751 | the file that holds the canonical framed document of a valid session is loaded as that session |
| Identity.SameButSameDict | src/sesslint/_canonical_codec.py:178-232 | events that agree outside some fields have equal dictionaries without them |
| Identity.SameDictSameBut | src/sesslint/_canonical_codec.py:178-232 | and the other way round |
| Identity.ContentIdentityIff | src/sesslint/_canonical_codec.py:112-130 | content identity bytes are equal if and only if the events agree on everything serialised except the three provenance fields |
| Identity.RewriteEvent | src/sesslint/canonical.py:333-343 | the conditional edits give the dictionary with position, id and parent replaced |
| Identity.SyntheticIs | src/sesslint/adapters/synthetic.py:59-61 | an id is synthetic if and only if it is the prefix with anything or nothing behind it |
| Identity.HashedIs | src/sesslint/canonical.py:313-355 | what is hashed for event `i`: `seq` is `i`, a synthetic id and a synthetic parent that is in the list are the place of the first event of that id, no provenance, every other field as written |
| Identity.ReparseIdentityHashes | src/sesslint/canonical.py:313-355 | the loops compute the hash list of first-position dictionaries, or raise when one has no canonical bytes |
| Identity.PlacesGiveRenaming | src/sesslint/canonical.py:328-342 | equal positions define a bijection between the synthetic ids of the two lists |
| Identity.NamesGivePosition | src/sesslint/canonical.py:328-342 | under a renaming, an id and its image have the same first position |
| Identity.ReparseComplete | src/sesslint/canonical.py:313-355 | two lists get equal hash lists if and only if they agree position by position up to `seq`, provenance and a bijective renaming of the synthetic ids each defines, dangling and real ids raw |
| DiffMatching.PartnerIs | src/sesslint/diff.py:211-228 | position `i` is paired with `j` if and only if both hold the same occurrence of the same key |
| DiffMatching.OneIsPaired | src/sesslint/diff.py:211-228 | two positions with the same key are never both left over |
| DiffMatching.PopTaken | src/sesslint/diff.py:219-220 | the popping loop drops exactly the leading entries already matched |
| DiffMatching.FillBuckets | src/sesslint/diff.py:211-213 | each bucket holds the positions of its key in order |
| DiffMatching.PairUp | src/sesslint/diff.py:215-245 | a pass over buckets gives exactly the pairs, the leftovers and the matched set of its specification |
| Diff.PassIsOk | src/sesslint/diff.py:215-245 | a pass pairs injectively along ascending left positions, equal keys only, and leaves no pair of equal keys over |
| Diff.Pass1PairsOccurrences | src/sesslint/diff.py:211-228 | the first pass pairs the k-th occurrence of an id with the k-th occurrence of it, and nothing else |
| Diff.Pass2Ends | src/sesslint/diff.py:230-245 | a pair of the second pass has equal fallback keys and different ids |
| Diff.AlignMatches | src/sesslint/diff.py:211-245 | the pairs are an injective matching; every index is paired or removed, or paired or added, exactly once; no leftovers share an id or a fallback key |
| Diff.SecondPassIdle | src/sesslint/diff.py:230-245 | when the digest covers the id the second pass adds no pair |
| Diff.DeltasAreExpected | src/sesslint/diff.py:247-325 | the result holds each change of a pair, each pair crossed by another one and each leftover exactly once, and nothing else |
| Diff.PairDeltasSay | src/sesslint/diff.py:250-287 | a pair has a kind, parent or content change if and only if the two sides differ there, with the left side first, both indices and the left id |
| Diff.SafeIdIs | src/sesslint/diff.py:182-194 | an id is shown as the filter leaves it, an absent or empty one as nothing |
| Diff.DeltasAreSorted | src/sesslint/diff.py:327-334 | the result stands in the order of the categories, within a category by left index, right index and id, by code point |
| Diff.CrossedIffOvertaken | src/sesslint/diff.py:289-302 | a pair falls below the running maximum if and only if an earlier pair ends to its right |
| Diff.SelfDiffEmpty | src/sesslint/diff.py:201-335 | a list compared with itself shows nothing, whatever its ids are |
| Diff.NoCrossingIsIdentity | src/sesslint/diff.py:289-302 | a bijection of initial segments without a crossing is the identity |
| Diff.DiffEmptyIff | src/sesslint/diff.py:201-335 | no difference if and only if the lists are equal in id, kind, parent and digest at every index |
| DiffEvents.DiffEvents | src/sesslint/diff.py:201-335 | hashing where the code hashes, the comparator raises exactly when some event anywhere has no canonical bytes, and otherwise gives the specified delta list |
| DiffEvents.AllReached | src/sesslint/diff.py:230-278 | every event is hashed as a leftover of the first pass or in a pair of it |
| DiffEvents.HashCoversId | src/sesslint/_canonical_codec.py:112-134 | because the identity hash covers the id, the second pass is idle under a collision-free hash |
| DiffEvents.NoDeltaIff | src/sesslint/diff.py:201-335 | under a collision-free hash there is no delta if and only if the lists have equal length and equal content, provenance apart, at every index |
| IndexSalvage.ExtractEntries | src/sesslint/indexes.py:119-140 | the entries are the list's objects in order, with the number of those without an id |
| IndexSalvage.EntryIs | src/sesslint/indexes.py:132-138 | an entry names the session and the path its object has as non-empty strings |
| IndexSalvage.MissingIs | src/sesslint/indexes.py:127-140 | the number reported is that of the items which are no object or have no session id |
| IndexSalvage.SkipSepIs | src/sesslint/indexes.py:154-158 | between values salvage passes whitespace and commas, and nothing else |
| IndexSalvage.SalvagePartialEntries | src/sesslint/indexes.py:143-172 | the nested loops compute the salvage of the text |
| IndexSalvage.CutValue | src/sesslint/indexes.py:153-172 | a value cut before its end gives no entry |
| IndexSalvage.SalvageExact | src/sesslint/indexes.py:143-172 | from any truncation salvage recovers exactly the entries complete before the cut, up to the cap |
| IndexSalvage.SalvageIsPrefix | src/sesslint/indexes.py:143-172 | that is a prefix of the list behind the first bracket after the first marker, and all of it up to the cap on the whole text |
| IndexDocument.SalvageOfDocument | src/sesslint/indexes.py:119-172 | from any truncation of a document whose list it finds, salvage gives a prefix of what extraction gives on the whole, and on the whole all of that up to the cap |
| IndexDocument.FindsIff | src/sesslint/indexes.py:143-151 | it finds the list of the document if and only if the first marker precedes it and no other bracket lies between |
| IndexDocument.MarkerIsName | src/sesslint/indexes.py:143-151 | in particular when the first marker is the name of the last, or only, top-level `entries` |
| IndexDocument.NestedFirst | src/sesslint/indexes.py:143-172 | a document on which it does not, and reports an entry that is not listed |
| Conditionals.RunTree | scripts/render_manifests.py:99-116 | running over the lines of a block tree emits its meaning and restores the stack |
| Conditionals.MarkMeans | scripts/render_manifests.py:36-37 | a line is a marker of a key if and only if it is whitespace, the head, the key in its alphabet, a closing brace, and at most one line feed |
| Conditionals.FindTree | scripts/render_manifests.py:99-116 | every successful run has a block tree |
| Conditionals.RunIsEval | scripts/render_manifests.py:94-120 | the machine succeeds if and only if the template is well nested, with the tree's meaning as output |
| Conditionals.RenderConditionals | scripts/render_manifests.py:94-120 | output if and only if well nested, equal to the evaluation of the block tree; a marker is reported as unmatched when no later text can mend it, a block as unclosed when closing it next and some more text do |
| AtomicWrite.WriterKeepsInv | src/sesslint/atomic.py:117-164 | every step of the writer, succeeding or failing, keeps the protocol invariant |
| AtomicWrite.AdversaryKeepsInv | src/sesslint/atomic.py:117-164 | so does everything an adversary does to the destination |
| AtomicWrite.AdversaryFree | src/sesslint/atomic.py:43-54 | that adversary can put any content behind the destination, by another file or in place, and remove it |
| AtomicWrite.EveryStep | src/sesslint/atomic.py:117-164 | in every run a step not made by the adversary leaves the destination alone or installs exactly the data, without `overwrite` only where nothing was |
| AtomicWrite.OneInstallation | src/sesslint/atomic.py:140-152 | there is at most one installing step |
| AtomicWrite.ErrorMeansUnpublished | src/sesslint/atomic.py:153-162 | after an error nothing was ever installed, and the staging file is gone unless its unlink failed |
| AtomicWrite.SuccessMeansInstalled | src/sesslint/atomic.py:140-164 | a success means the data was installed |
| AtomicWrite.OldOrComplete | src/sesslint/atomic.py:43-54 | undisturbed, a reader sees the old destination or all of the data at every moment, crashes included |
| AtomicWrite.QuietRun | src/sesslint/atomic.py:117-164 | and such a run exists |
| AtomicWrite.CutRun | src/sesslint/atomic.py:117-164 | the writer can stop after any byte, with just those bytes staged and the destination as it was |
| AtomicWrite.FailRun | src/sesslint/atomic.py:153-162 | it can fail before each step up to publication, and leaves the staging file only when its unlink fails |

## Left out

* Python's recursion limit and its limit on the digits of an integer: values of any depth and integers of any length
  are read and printed.
* Cyclic and shared objects: a JSON value is a tree, so the `seen` sets of the normaliser and of the depth
  validation have nothing to detect.
* SHA-256, `float.__repr__` and the privacy filter are parameters, as said above. The timestamp check of sessions takes
  ASCII digits only, but any decimal digit from the seventh place of the fraction on: `datetime.fromisoformat`
  leaves no more of what the pattern admits. The decimal digits of Python's `\d` are those of Unicode 15.
* Real files: opening, `stat`, symbolic links, memory maps, `fsync` and the operating system's locks. A file is a
  byte sequence, an atomic rename or link is one step, and what a power failure does to unsynced data is not
  modelled; a failing unlink is.
- StreamReader.ProcessLine: does not model the message, the record id or the evidence beyond the coordinates of a
  finding.
* `_is_cut_json_object` is proved on texts; a Python string with a lone surrogate cannot come out of the decoder in
  front of it.
* The reader's duplicate-key findings, its secret scan, `MalformedTailTracker`, `read_header` and the texts of its
  findings: they add to a record's item and never change it.
* The size check by `stat` before a file is opened; the check on the bytes read is modelled.
* `read_index` around the salvage, and the line-based index of another agent.
* `refuse_paths` and the checks of `atomic_write_bytes` before its staging file exists are one failing first step; an
  interrupt between publication and the removal of the staging name is not modelled.
* The placeholder substitution of the manifest templates, and the wording of its errors.
* Everything that formats or plumbs: command line, HTML, SARIF and human reports, completion, hooks, configuration,
  the planner and the executor of repairs.
