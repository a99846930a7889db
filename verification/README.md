# Verification of the Cosmos Ledger application's parsing, display, and signing core

This is a Dafny model of the code that stands between the bytes a host sends to the device and
what the device shows and signs, with machine-checked proofs of what that code is for. Code that
changes state step by step is modelled by classes and by methods over arrays, proved against
specification functions; what the code promises is then proved about those functions.
`dafny verify dfyconfig.toml` checks everything.

## What is modelled

**Transactions as JSON.** The tokenizer (`Jsmn`) turns text into a flat array of spans.
`JsmnProperties` shows what it guarantees on every input it accepts, malformed JSON included, and
that it can be resumed with a larger array. `JsonText` has a grammar of JSON texts, character by
character; `JsmnAcceptance` shows that the texts accepted are those whose brackets match around the
strings and primitives of that grammar, and `JsmnPrinter` that on JSON texts, with whatever blanks
between their tokens, the tokenizer is the inverse of the printer. `JsonTree` says what it means
for a token array to list a tree; `JsonNav` proves that the navigation by comparing span starts
with span ends finds exactly the tree's children, and what its object count says when it is asked
about an array: a pair count that is a function of the tree alone. `JsonMeaning` shows that keys
and leaves of that tree have the texts that were written. `TxLeaves` and `TxParser` cover the
recursive traversal with its counters, budgets and shared key buffer, and `TxScreens`, `TxDisplay`
and `TxCoverage` the display on top of it: indexing, grouping, counting, and queries. The main
result is that the queries for all indices below the number of items bring exactly the leaves of
the root fields that are not hidden, once each and in order; `TxPipeline` joins it to the
tokenizer, for every JSON object however it is spaced. `TxEntries` says of fees, tips and messages
which of their entries become leaves and under which keys; `TxDelegations` and `TxItems` list all
screens of a transaction with two delegations, in every mode, with the keys and values shown.

`TxValidate` covers the validation of parsed transactions: whitespace, the order of dictionary
keys, required fields. `TxSpacing` says which blanks it sees, and `TxCanonical` which texts it
accepts. `TxReview` adds what the application does before it shows a transaction, which is to ask
for every item once. It accepts exactly the canonical objects that can be shown whole, and on those
every index below the number of items brings the screen with that very index
(`TxReview.ReviewPrinted`), without the exceptions below. `TxSamples` has inputs for the results
that have exceptions, and one that is accepted; `TxItems` has another. `TextEscape` is the escaping of texts for the
screen.

**CBOR.** `CborFormat` is the data format of section 3 of RFC 8949, as the shortest encoding of an
item and as a decoder with three settings: shortest integers, definite lengths, tags that count as
nesting. `CborForms` has all the ways in which an item may be written, byte by byte and without the
decoder, and proves that a reader finds an item exactly where one of those it allows is written.
`CborParser` and `CborTraversal` are the pull iterator, `CborEncoder` the streaming encoder,
`CborValidation` the validator, all proved against the format; `CborWritten` says what each of them
does on the written forms. `CborRoundTrip` and `CborCanonical` put them together, and `CborNesting`
compares the two nesting rules. `ByteDumps` has the in-place hexadecimal and base64 writers for
byte strings.

**Keccak.** `Keccak` is the permutation in place on 64-bit lanes, `KeccakHash` the sponge around
it. `KeccakBits` and `KeccakSponge` have the step mappings, the permutation and the sponge of FIPS
202 as it defines them, bit by bit, with Keccak's original padding, and prove that every bit of
every hash is theirs.

**Commands.** `Apdu` is the command handler with its phases and callbacks, and a theorem about
every run of commands and user decisions. `ApduReplies` is a table of the reply to every command,
in terms of its bytes.

## Results where the code and its promise part

- Advancing over a tag looks no further than the next head, so it can succeed where no well-formed
  item starts (`CborTraversal.AdvanceFresh` has the exact behaviour,
  `CborTraversal.AdvanceOverTagIsPartial` an input).
- Basic validation is documented to give the same result as validation without flags. The one
  advances, the other counts tags as nesting and allows one level less.
  `CborNesting.BasicValidations` says exactly when they agree, with and without a tag in front, and
  that what the second accepts the first does too; `CborNesting.TaggedHeadDisagrees` and
  `CborNesting.DeepestArrayDisagrees` are inputs on which they differ.
- Simple value 24 is encoded without complaint and decoded by no reader
  (`CborRoundTrip.Simple24DoesNotReadBack`); the round trip holds exactly for items without it.
- The traversal takes an array's loop bound from the object count. It visits all leaves of the tree
  exactly if each array above the level cut has a pair count that reaches all its elements with
  leaves (`TxCoverage.VisitsAllLeaves`). Arrays of non-empty containers do
  (`TxCoverage.NothingMissed`); of an array of strings or primitives only the first half is visited
  (`TxCoverage.HalfMissed`, with an input in `TxSamples.SecondStringMissed`).
- Grouping compares the first page of the values as they are shown. A leaf hidden by it has the
  very text of the first leaf of its group exactly if both agree behind that page and both or
  neither are names shown in another form (`TxCoverage.HiddenText`). The types `cosmos-sdk/MsgSend`
  and `Send` are shown as one (`TxSamples.TypesShownAsOne`).
- Outside expert mode the fee counts as one item. If it has no leaves (`TxSamples.EmptyFeeNotShown`
  is an input), the display index of the fee, and no other one, has no screen, and the query for it
  fails (`TxScreens.ScreenOfItem`, `TxDisplay.Display.DisplayQuery`). No such transaction is shown:
  validation asks for that index too and refuses it (`TxReview.ValidateItems`).
- When the indexing of the root fields fails on the chain's name, the cache counts as valid
  afterwards, and a second call would succeed with senders grouped as if the chain were the default
  one and hidden or not as an earlier transaction left it (`TxDisplay.Display.IndexRootFields`). It
  does not come to that: the first call is the validation's, and the transaction is refused
  (`TxReview.Validate`, with an input in `TxSamples.ZeroChainRefused`).
- The check for whitespace passes exactly if there is no blank around a key or a value, apart from
  blanks that open an inner container and one blank behind a primitive or an empty container
  (`TxSpacing.BlanksSeen`); `TxSamples.BlankUnseen` is a text with a blank that passes.
- The translation for the screen marks a final blank, but looks for it in the last byte. Invalid
  UTF-8 can write a blank in several bytes and leave it unmarked (`TextEscape.FinalBlank` says
  exactly when, `TextEscape.OverlongBlank` is an input); valid texts cannot
  (`TextEscape.ValidNeverEndsInBlank`).
- The 8-bit counters of grouped leaves may wrap. Then too many items are left and the transaction
  is refused (`TxDisplay.Display.GetSubitemCount`).
- An error during a review ends the review without taking the approval back, and an initialisation
  may follow. Over every run an approval signs what was sent and parsed exactly if the commands
  since the review began have not overwritten buffer, path or encoding, or only with the same
  (`Apdu.ApprovalSigns`); `Apdu.ApprovalAfterError` and `Apdu.UnparsedSigned` show runs in which it
  signs something else. While the transaction is still under review nothing is overwritten
  (`Apdu.SignsWhatWasSent`).

## Reading notes

- `size_t` is 32 bits wide, as on the devices; buffers are no longer than it can say. The encoder
  also keeps lengths in a `ptrdiff_t`: its contracts are for a buffer and an encoded stream shorter
  than 2^31 bytes.
- Characters stand for bytes. A text is at most 16384 bytes long, so that no span or index wraps.
- Object scans read one token ahead. The token array has one slot behind the last token, and what
  is in it is arbitrary.
- Where the source walks a tree that exists only in its token array, the methods take that tree as
  a ghost argument; `JsonNav.Hosts` ties it to the array.
- The display is modelled for transactions without the value `cosmos-sdk/MsgMultiSend`, which would
  make the traversal of the messages go one level deeper from then on (`TxDisplay.NoMultiSend`).
- A key buffer for display queries holds 30 bytes or more; the application's own has 35.
- What formatting makes of the token of an amount, for a buffer size and a page, is a parameter of
  `TxReview` and does not change during a review.
- The user interface runs the callback of a review once: a decision clears it in the model, which
  the application's own code leaves to the interface.
- An exception thrown by the command handler is its reply. What the device answers while a command
  is handled (expert mode, PIN, the length of the derived address, the parser's verdict) comes with
  the command.


## Model

| member | source | states |
|---|---|---|
| CborFormat.DecodeInvertsEncode | deps/tinycbor/src/cborencoder.c:308-335 | the encoding of any item, at any place in any buffer, decodes to that item and ends after its last byte, unless it holds a simple value 24 or nests too deep, in which case nothing is decoded |
| CborFormat.EncodeInvertsDecode | deps/tinycbor/src/cborparser.c:167-263 | whatever any reader accepts is an encodable item within the limits of that reader, and under the strict mode the bytes read are exactly its encoding |
| CborFormat.CanonicalReaderAcceptsEncodings | deps/tinycbor/src/cborvalidation.c:293-320 | a reader that demands shortest integers and definite lengths finds exactly the item whose encoding lies there, and no other bytes are accepted |
| CborFormat.DecodedItemsRoundTrip | deps/tinycbor/src/cborencoder.c:308-335 | re-encoding what a reader accepted, however it was written, gives bytes that decode to the same item in every mode of the same nesting rule |
| CborForms.FormRead | deps/tinycbor/src/cborparser.c:167-263 | any form of any item, of whatever widths, definite or not, with whatever chunks, is read at any place in any buffer as that item up to its last byte by every reader that allows it, unless it nests too deep |
| CborForms.FormOf | deps/tinycbor/src/cborparser.c:167-263 | whatever a reader accepts was written in a form that it allows |
| CborForms.ReadersReadForms | deps/tinycbor/src/cborparser.c:167-263 | so a reader finds an item exactly where such a form of it is written |
| CborParser.Value.PreparseValue | deps/tinycbor/src/cborparser.c:167-263 | the head at the position of the iterator is accepted exactly when it is well formed (with the rule for one-byte simple values), and type, argument and flags then describe it; nothing is consumed |
| CborParser.Value.ExtractNumber | deps/tinycbor/src/cbor.h:369-373 | the argument of the current head, whether it is kept in the iterator or still in the buffer |
| CborParser.Value.PreparseNextValueNoDecrement | deps/tinycbor/src/cborparser.c:265-282 | moving on keeps the list of items still to come, ends an indeterminate container exactly at its break byte, and refuses a break between a key and its value or after a tag |
| CborParser.Value.PreparseNextValue | deps/tinycbor/src/cborparser.c:284-302 | the same after an item was passed: the count goes down by one, except behind a tag |
| CborParser.Value.AdvanceFixed | deps/tinycbor/src/cborparser.c:304-325 | a fixed-size item is passed whole, consuming at least a byte and never passing the end |
| CborParser.Value.ContainerCount | deps/tinycbor/src/cborparser.c:593-612 | a declared length is taken only if it does not collide with the marker for an unknown length, doubled for maps |
| CborParser.Value.EnterContainer | deps/tinycbor/src/cborparser.c:582-629 | the new iterator's items are exactly those the container's bytes decode to, and entering fails exactly when they do not decode |
| CborParser.Value.LeaveContainer | deps/tinycbor/src/cborparser.c:631-640 | after a walk to the end the outer iterator stands behind the container with its own remaining items unchanged |
| CborParser.Value.GetStringChunkSize | deps/tinycbor/src/cborparser.c:994-1044 | the next chunk's place and length, or the end of the string at its break byte or after its only chunk |
| CborParser.Value.GetStringChunk | deps/tinycbor/src/cborparser.c:1052-1067 | each chunk is a prefix of what is left of the string, and what is left afterwards is the rest |
| CborParser.Value.FinishStringIteration | deps/tinycbor/src/cborparser.c:986-992 | the iterator goes on behind the string |
| CborTraversal.IterateChunks | deps/tinycbor/src/cborparser.c:1184-1229 | the chunks of a string, copied or only measured, concatenate to its value; the copy is complete exactly when it fits, and bytes outside the destination are untouched |
| CborTraversal.CopyString | deps/tinycbor/src/cborparser.c:1299-1310 | copying a string yields its bytes, its length even when it does not fit, and a NUL when there is room for one |
| CborTraversal.AdvanceRecursive | deps/tinycbor/src/cborparser.c:476-502 | skipping an item leaves the end of the iterated items where decoding puts it, or fails exactly because what follows does not decode within the nesting limit; over a tag it stops at the tagged item |
| CborTraversal.SkipContainer | deps/tinycbor/src/cborparser.c:490-502 | entering, skipping every child and leaving is passing the container |
| CborTraversal.ParserInit | deps/tinycbor/src/cborparser.c:347-357 | a fresh iterator stands at the first byte and exists exactly when a readable head is there |
| CborTraversal.Advance | deps/tinycbor/src/cborparser.c:519-525 | advancing at the end is refused without moving; otherwise it passes one item |
| CborTraversal.AdvanceFresh | deps/tinycbor/src/cborparser.c:519-525 | exact consumption: from a fresh iterator on anything but a tag advancing succeeds if and only if a well-formed item within the limits starts the buffer, and stops just behind it; on a tag it looks no further than the next head |
| CborTraversal.AdvanceOverTagIsPartial | deps/tinycbor/src/cborparser.c:304-325 | a tag before a truncated string is an input that advancing accepts although no well-formed item starts the buffer |
| CborTraversal.ReadItem | deps/tinycbor/src/cborparser.c:582-640 | reading an item by entering, reading children and leaving gives what the bytes decode to, and ends where they end |
| CborTraversal.ReadContainer | deps/tinycbor/src/cborparser.c:582-640 | the same for an array or map, item by item |
| CborWritten.ReadWritten | deps/tinycbor/src/cborparser.c:582-640 | reading by enter and leave succeeds exactly on the buffers that start with a form of an item nested at most 1024 deep, and gives the item and the end of its bytes |
| CborWritten.AdvanceWritten | deps/tinycbor/src/cborparser.c:519-525 | skipping passes every such form whole, a tag excepted, of which it passes the head; nothing else is passed but bytes with a tag in front |
| CborWritten.ArraysRead | deps/tinycbor/src/cborparser.c:593-612 | the arrays of Appendix A of RFC 8949, of known and unknown length, are read as the appendix says |
| CborWritten.MapsRead | deps/tinycbor/src/cborparser.c:188-192 | so are its maps |
| CborWritten.ChunksReadAs | deps/tinycbor/src/cborparser.c:1052-1066 | and so are its strings in chunks |
| CborEncoder.Encoder.Append | deps/tinycbor/src/cborencoder.c:272-301 | append_to_buffer: the bytes go to the buffer if all of them fit, are only counted otherwise, and nothing is written past the room |
| CborEncoder.AssembleHead | deps/tinycbor/src/cborencoder.c:308-335 | the scratch buffer holds the shortest head of the number, in network byte order |
| CborEncoder.Encoder.EncodeNumberNoUpdate | deps/tinycbor/src/cborencoder.c:308-335 | exactly that head is appended |
| CborWritten.EncodesNarrowest | deps/tinycbor/src/cborencoder.c:308-335 | what is written for an item is its form with all arguments in the narrowest width and all lengths known |
| CborEncoder.Encoder.SaturatedDecrement | deps/tinycbor/src/cborencoder.c:337-341 | the container's missing items go down by one, stopping at zero |
| CborEncoder.Encoder.EncodeUInt | deps/tinycbor/src/cborencoder.c:355-358 | appends the encoding of the unsigned integer and counts one item |
| CborEncoder.Encoder.EncodeNegativeInt | deps/tinycbor/src/cborencoder.c:368-371 | appends the encoding of minus the absolute value, zero standing for minus two to the 64th |
| CborEncoder.Encoder.EncodeInt | deps/tinycbor/src/cborencoder.c:379-389 | the two's-complement trick picks the right major type and argument for every signed 64-bit value |
| CborEncoder.Encoder.EncodeSimpleValue | deps/tinycbor/src/cborencoder.c:395-403 | refuses exactly 25 to 31, changing nothing; appends the encoding of all others |
| CborEncoder.Encoder.EncodeFloatingPoint | deps/tinycbor/src/cborencoder.c:416-433 | appends the initial byte and the bit pattern in network byte order |
| CborEncoder.Encoder.EncodeTag | deps/tinycbor/src/cborencoder.c:439-443 | appends the tag's head and counts no item |
| CborEncoder.Encoder.EncodeString | deps/tinycbor/src/cborencoder.c:445-451 | appends the string's head and its bytes, counting one item, also across the end of the room |
| CborEncoder.Encoder.CreateContainer | deps/tinycbor/src/cborencoder.c:490-514 | the nested encoder continues the stream with the container's head and knows how many items are due; the parent counts one item |
| CborEncoder.Encoder.CreateArray | deps/tinycbor/src/cborencoder.c:530-533 | the same for an array, of definite or indefinite length |
| CborEncoder.Encoder.CreateMap | deps/tinycbor/src/cborencoder.c:554-560 | a map too long for its doubled count is refused without a change; otherwise twice its length is due, or any number if the length is indefinite |
| CborEncoder.Encoder.CloseContainer | deps/tinycbor/src/cborencoder.c:573-589 | a container of definite length closes with success if and only if exactly the declared number of items was added and all bytes fitted; the error tells too many from too few |
| CborEncoder.Encoder.GetExtraBytesNeeded | deps/tinycbor/src/cborencoder.c:256-301 | byte conservation: room plus reported shortage is the length of everything appended |
| CborRoundTrip.WriteItem | deps/tinycbor/src/cborencoder.c:379-451 | writing an item with the encoder's calls appends exactly its encoding and counts one item, with or without enough room |
| CborRoundTrip.WriteContainer | deps/tinycbor/src/cborencoder.c:490-589 | the same for arrays and maps with create, items and close |
| CborRoundTrip.WriteAndReadBack | deps/tinycbor/src/cborencoder.c:203-209 | the round trip for every item: with enough room reading back gives the same item and stops at the end of its bytes, exactly when it is readable; without, room plus shortage is the size of the encoding |
| CborRoundTrip.Simple24DoesNotReadBack | deps/tinycbor/src/cborencoder.c:395-403 | simple value 24 is taken by the encoder and given back by no reader |
| CborValidation.ValidateNumber | deps/tinycbor/src/cborvalidation.c:293-320 | accepts exactly heads whose argument is in its shortest form, floats apart |
| CborValidation.ValidateValue | deps/tinycbor/src/cborvalidation.c:501-642 | validating an item accepts exactly what decodes under the flags within the levels left, and moves behind it |
| CborValidation.ValidateTag | deps/tinycbor/src/cborvalidation.c:322-372 | the same for a tag and its item, which count as one more level |
| CborValidation.ValidateContainer | deps/tinycbor/src/cborvalidation.c:438-499 | the same for all children of a container, keys and values alike |
| CborValidation.Validate | deps/tinycbor/src/cborvalidation.c:644-656 | cbor_value_validate refuses the end of a container and whatever does not decode under the flags, or does not end the buffer if complete data is asked for; anything else it accepts, unless what has to follow in the container cannot be read |
| CborValidation.ValidateFresh | deps/tinycbor/src/cborvalidation.c:644-656 | from a fresh iterator it succeeds exactly when an item decodes under the flags, and reaches the end of the buffer if complete data is asked for |
| CborValidation.ValidateCanonical | deps/tinycbor/src/cborvalidation.c:644-656 | with all three flags it accepts exactly the buffers that are the encoding of a readable item |
| CborWritten.ValidateWritten | deps/tinycbor/src/cborvalidation.c:644-656 | accepts exactly the forms that the flags allow, tags counting as nesting, to the end of the buffer if complete data are asked for |
| CborCanonical.Reencode | deps/tinycbor/src/cborvalidation.c:644-656 | canonical streams are fixed points: what validates is reproduced byte by byte by reading it and writing it again |
| CborNesting.NestingRulesFilter | deps/tinycbor/src/cborparser.c:446-455 | two readers that differ only in nesting rules agree on every item both allow |
| CborNesting.BasicValidations | deps/tinycbor/src/cborparser.c:446-450 | basic validation accepts what validation without flags accepts; they agree on an item without a tag in front exactly unless it is well formed and unreadable with tags counted and one level less, and on one with a tag exactly if the head behind the tag is readable just when the whole item is |
| CborNesting.TaggedHeadDisagrees | deps/tinycbor/src/cborparser.c:446-450 | a tag before a truncated string is accepted by the one and refused by the other |
| CborNesting.DeepestArrayDisagrees | deps/tinycbor/src/cborvalidation.c:644-656 | so are 1024 nested arrays |
| ByteDumps.WriteHex | deps/tinycbor/src/cbortojson.c:194-198 | the digits written over the input are the hexadecimal form of the input: no unread byte is overwritten |
| ByteDumps.FromHexInverts | deps/tinycbor/src/cbortojson.c:194-198 | the digits determine the bytes |
| ByteDumps.HexAt | deps/tinycbor/src/cbortojson.c:194-198 | the digits of each byte are those of its upper and its lower half, in lower case |
| ByteDumps.WriteBase64 | deps/tinycbor/src/cbortojson.c:226-246 | the groups written from the front are those of the bytes at the back, although each word is read from one byte too early |
| ByteDumps.WriteRest | deps/tinycbor/src/cbortojson.c:248-274 | the last one or two bytes, the filler and the NUL |
| ByteDumps.GroupsOf | deps/tinycbor/src/cbortojson.c:241-245 | the four 6-bit groups of a word do not depend on the byte above its 24 bits |
| ByteDumps.FromSextetsInverts | deps/tinycbor/src/cbortojson.c:241-245 | the 6-bit groups determine the bytes |
| ByteDumps.Base64Injective | deps/tinycbor/src/cbortojson.c:277-292 | in each alphabet the digits determine the bytes |
| ByteDumps.AlphabetsAre | deps/tinycbor/src/cbortojson.c:277-292 | both alphabets have 64 different digits, none of them NUL |
| ByteDumps.DigitsInOrder | deps/tinycbor/src/cbortojson.c:279-291 | the digits stand for their values in the order of sections 4 and 5 of RFC 4648 |
| ByteDumps.GroupsHoldBytes | deps/tinycbor/src/cbortojson.c:228-246 | the four groups of each three bytes, put together, are their 24 bits |
| ByteDumps.KnownBase64 | deps/tinycbor/src/cbortojson.c:228-273 | test vectors of section 10 of RFC 4648 for each way to end |
| ByteDumps.DumpBase16 | deps/tinycbor/src/cbortojson.c:170-200 | the byte string at an iterator, in however many chunks, comes out as its lower-case hexadecimal form with a NUL |
| ByteDumps.DumpBase64 | deps/tinycbor/src/cbortojson.c:202-275 | the same in base64, padded or not as the alphabet says |
| Jsmn.Parser.AllocToken | deps/jsmn/src/jsmn.c:6-19 | a cleared token, or none when the array is full |
| Jsmn.Parser.ParsePrimitive | deps/jsmn/src/jsmn.c:35-84 | scans to the delimiter and adds one token; any failure leaves position and tokens as they were |
| Jsmn.Parser.ParseString | deps/jsmn/src/jsmn.c:89-157 | scans to the closing quote, checking escapes, and adds one token; any failure leaves position and tokens as they were |
| Jsmn.Parser.CloseBracket | deps/jsmn/src/jsmn.c:194-243 | closes the innermost open token if the types match, and makes the next open one the superior token |
| Jsmn.Parser.Comma | deps/jsmn/src/jsmn.c:259-276 | makes the innermost open container the superior token again |
| Jsmn.Parser.ParseChar | deps/jsmn/src/jsmn.c:169-308 | one character does to the parser what the step function says |
| Jsmn.Parser.Parse | deps/jsmn/src/jsmn.c:162-319 | the whole loop over the token array computes the run function, and the count returned is the number of tokens |
| JsonText.CharactersAgree | deps/jsmn/src/jsmn.c:42-61 | the characters that may be escaped, the hexadecimal digits, and the characters of a primitive, are those listed in the grammar |
| JsonText.ScannedString | deps/jsmn/src/jsmn.c:89-157 | whatever is scanned up to a closing quote is a string of section 7 of RFC 8259, apart from raw control characters |
| JsonText.StringScans | deps/jsmn/src/jsmn.c:89-157 | and every such string in front of a quote is scanned up to it |
| JsonText.PrimitiveScans | deps/jsmn/src/jsmn.c:35-84 | a primitive is scanned up to the delimiter behind it |
| JsonText.NumbersArePrimitive | deps/jsmn/src/jsmn.c:42-61 | all numbers of section 6 of RFC 8259 are primitives |
| JsmnAcceptance.AcceptsMatching | deps/jsmn/src/jsmn.c:162-319 | a text is accepted exactly if its brackets match around strings and primitives of the grammar, unless the tokens run out; as many tokens as characters always do |
| JsmnProperties.StepKeepsSpans | deps/jsmn/src/jsmn.c:169-308 | every step keeps tokens in place between their delimiters, starts increasing, and spans nested or apart |
| JsmnProperties.AcceptedSpans | deps/jsmn/src/jsmn.c:310-318 | on any accepted input, malformed JSON included, every token is closed inside the text and any two are nested or disjoint |
| JsmnProperties.ResumedRun | deps/jsmn/src/jsmn.c:73-77 | a run that stopped for want of tokens goes on, with more of them, exactly as one larger run; other runs do not depend on the room |
| JsmnProperties.GrowingIsOneRun | deps/jsmn/src/jsmn.c:106-110 | however often the array is grown, the outcome is that of one run at the last capacity |
| JsmnProperties.ParseGrowing | deps/jsmn/test/tests.c:195-224 | the caller's loop of copying the tokens to a larger array and parsing on gives the outcome, count and tokens of one run with the last capacity |
| JsmnPrinter.ReadValue | deps/jsmn/src/jsmn.c:162-319 | reading on from the start of a value's text appends exactly that value's tokens |
| JsmnPrinter.TokenizerInvertsPrinter | deps/jsmn/src/jsmn.c:162-319 | on the text of any tree, with any blanks between its tokens, the tokenizer succeeds exactly when it has room for every node, and lists the tree in preorder with exact types, spans and child counts |
| JsonNav.ParseJson | app/src/json/json_parser.c:25-94 | succeeds exactly on NUL-free texts within the size limit that the tokenizer accepts with at least one token, and holds its tokens; which error it gives otherwise |
| JsonNav.ArrayGetElementCount | app/src/json/json_parser.c:96-128 | the loop counts the tokens the scan function lists |
| JsonNav.ArrayGetNthElement | app/src/json/json_parser.c:130-167 | the n-th of them, or no data |
| JsonNav.ObjectGetElementCount | app/src/json/json_parser.c:169-202 | the number of keys the scan function lists |
| JsonNav.ObjectGetNthKey | app/src/json/json_parser.c:204-242 | the n-th of them, or no data |
| JsonNav.ObjectGetNthValue | app/src/json/json_parser.c:244-261 | the token after the n-th key |
| JsonNav.ObjectGetValue | app/src/json/json_parser.c:263-308 | the value of the first key of that name, or no data |
| JsonNav.ElementsOfArray | app/src/json/json_parser.c:96-167 | on the tokens of a tree the array scan lists exactly the elements, at their preorder indices |
| JsonNav.KeysOfObject | app/src/json/json_parser.c:169-261 | on the tokens of a tree the object scan lists exactly the keys, each before its value |
| JsonNav.ObjectCountOfArray | app/src/json/json_parser.c:169-202 | the object count of an array is the pair count of its tree, whatever surrounds it |
| JsonNav.ObjectCountReachesItems | app/src/json/json_parser.c:169-202 | for an array of non-empty containers it is at least the element count |
| JsonNav.ObjectCountHalvesLeaves | app/src/json/json_parser.c:169-202 | on an array of strings and primitives it is half the element count, rounded up |
| JsonNav.PrintedTreeHosted | app/src/json/json_parser.c:25-94 | the tokens of any JSON text, with any blanks, are laid out as the navigation lemmas ask |
| JsonMeaning.TreeSays | app/src/json/json_parser.c:25-94 | the tree behind the tokens of a JSON text has its keys and leaves where they were written, with the texts that were written |
| TxParser.StrcatChunk | app/src/tx_parser.c:32-54 | appends as much of the chunk as fits, always terminated, whatever the buffer held; a NUL in the chunk ends the text |
| TxParser.TxObject.AppendKeyItem | app/src/tx_parser.c:131-147 | the key becomes the path with one more component, cut to the buffer |
| TxParser.TxObject.TraverseFind | app/src/tx_parser.c:155-275 | the recursive traversal comes to what the counting search over the flattened leaves comes to; level and depth budgets are restored on every path, and the key on failure |
| TxParser.TxObject.FindInObject | app/src/tx_parser.c:215-248 | the same for the values of an object, whose keys are appended meanwhile |
| TxParser.TxObject.FindInArray | app/src/tx_parser.c:249-269 | the same for the elements of an array, bounded by its object count |
| TxParser.TxObject.VisitLeaf | app/src/tx_parser.c:166-206 | a leaf is found, counted, or skipped with the wanted index moved on |
| TxParser.TxObject.Query | app/src/tx_parser.c:155-275 | from a fresh query context item k is the k-th leaf that is not skipped, or there is none |
| TxParser.TxObject.GetToken | app/src/tx_parser.c:79-129 | the page of the token's value after substitution, and the effect of message types on the extra depth level |
| TxParser.PageIsStretch | app/src/tx_parser.c:79-129 | a page is the stretch of the value that its number says |
| TxParser.PagesAreWhole | app/src/tx_parser.c:79-129 | the pages one after the other are the whole value, and none of them is empty unless the value is |
| TxLeaves.SearchFindsKthShown | app/src/tx_parser.c:191-206 | counting with a moving index finds the k-th leaf that is not skipped, or none if there are not so many |
| TxLeaves.LeavesIncrease | app/src/tx_parser.c:208-275 | the leaves are in document order and inside the node they are leaves of |
| TxScreens.LookUpFindsChild | app/src/tx_display.c:203-217 | looking up a root field finds the value of the first key of that name in the tree |
| TxScreens.GroupedCount | app/src/tx_display.c:394-408 | count minus grouped leaves, plus one for each group that still shows its first, is the number of leaves the traversal does not skip |
| TxScreens.AsManyItemsAsScreens | app/src/tx_display.c:480-499 | the numbers of items add up to the number of screens, and one more if a fee without leaves is counted |
| TxScreens.ItemsAreScreens | app/src/tx_display.c:412-418 | a root field has as many items as screens, with that one exception and exactly then |
| TxScreens.ItemFound | app/src/tx_display.c:519-534 | the leaf found for an item of a root field is the screen with that index |
| TxScreens.FeeIndex | app/src/tx_display.c:412-418 | when the fee has an item and no screen, the index without a screen is that of the fee |
| TxScreens.ScreenOfItem | app/src/tx_display.c:436-478 | the item a display index stands for has the screen with that index, or the one before it behind a fee without leaves |
| TxDisplay.GroupStepTracks | app/src/tx_display.c:253-306 | one more leaf keeps what a group knows: whether all agree, how many there are, where the first is |
| TxDisplay.Display.GroupMessage | app/src/tx_display.c:253-306 | the flags and 8-bit counters of both groups take that step |
| TxDisplay.Display.CountSubitems | app/src/tx_display.c:219-313 | counting by querying one index after the other finds all leaves of a root field (a memo's up to the first empty one) and groups the messages |
| TxDisplay.Display.IndexRoot | app/src/tx_display.c:200-321 | a root field is located by name and counted, or left empty if missing |
| TxDisplay.Display.CalculateIsDefaultChainid | app/src/tx_display.c:108-143 | whether the first leaf under the chain's name is the default one; the one-digit names are refused |
| TxDisplay.Display.IndexRootFields | app/src/tx_display.c:168-343 | indexing fails exactly on the chain's name, the first time only, and leaves cache, flags and counters that agree with the tree even then |
| TxDisplay.Display.SetSenderGrouping | app/src/tx_display.c:327-340 | the sender is grouped only outside expert mode, and hidden if it is the device's own address |
| TxDisplay.Display.GetSubitemCount | app/src/tx_display.c:369-434 | the cached counts minus the filter counters are the number of items, or the number is refused, also when an 8-bit counter wrapped |
| TxDisplay.Display.RetrieveTreeIndexes | app/src/tx_display.c:436-478 | a display index is split into the root field and the item in it that it stands for |
| TxDisplay.Display.DisplayNumItems | app/src/tx_display.c:480-500 | the number of items of all root fields, refused exactly when it exceeds 255 or a counter wrapped, or the first time on the chain's name |
| TxDisplay.Display.QueryItem | app/src/tx_display.c:519-536 | the query for an item brings the screen with that index and its key, or fails if there is none |
| TxDisplay.Display.DisplayQuery | app/src/tx_display.c:502-537 | every index below the number of items brings the screen it stands for, its token and its key; an index in range fails only if it is that of a fee without leaves |
| TxEntries.FeeLeaves | app/src/tx_display.c:66-90 | the leaves of a fee are its entries, in order, each with the key fee, a slash and its own |
| TxEntries.TipLeaves | app/src/tx_display.c:66-90 | so are the leaves of a tip |
| TxEntries.ScalarLeaf | app/src/tx_display.c:66-90 | a string or primitive in a root field is its one leaf, under the name of the field |
| TxEntries.MessageEntry | app/src/tx_parser.c:208-268 | of a message each entry that is a string or primitive is exactly one leaf, with the key msgs, a slash and its own |
| TxEntries.InnerEntry | app/src/tx_parser.c:208-268 | each entry of an object in a message is exactly one leaf, whatever its value, and has both keys in its key |
| TxEntries.ListedEntry | app/src/tx_parser.c:208-268 | so is each entry of an object in a list in a message |
| TxEntries.NestedField | app/src/tx_parser.c:208-268 | lists are looked into six deep, and what is nested deeper is shown as the text of a list |
| TxDelegations.TransactionScreens | app/src/tx_display.c:502-537 | all screens of a transaction with two delegations and a fee in coins, in and outside expert mode, signed by the delegator or not |
| TxItems.ChainByName | app/src/tx_display.c:108-143 | the default chain is the one with that name, and the names refused are 0 and 1 |
| TxItems.MemoByText | app/src/tx_display.c:244-252 | a memo that is a string has a screen unless it is empty |
| TxItems.FeeEntries | app/src/tx_display.c:412-418 | of a fee all entries are shown in expert mode or on other chains, and the first one otherwise |
| TxItems.TipEntries | app/src/tx_display.c:369-434 | of a tip all entries are shown |
| TxCoverage.ScreensDistinct | app/src/tx_display.c:502-537 | no two screens show the same token, and those of a root field are in document order |
| TxCoverage.ScreensCover | app/src/tx_display.c:369-434 | a leaf of a root field has a screen if and only if it is not hidden by mode, grouping or an empty memo |
| TxCoverage.VisitsAllLeaves | app/src/tx_parser.c:208-268 | the traversal visits every leaf of the tree above the cut exactly if the pair count of each array it visits there reaches all elements that have leaves |
| TxCoverage.NothingMissed | app/src/tx_parser.c:208-268 | so it does where arrays above the cut hold only non-empty containers |
| TxCoverage.EveryLeafOnScreen | app/src/tx_display.c:502-537 | the leaves of a root field are all that the tree has exactly under that condition, and each of them then is on a screen unless hidden |
| TxCoverage.HalfMissed | app/src/tx_parser.c:208-268 | of an array of strings and primitives above the cut only the first half is visited |
| TxCoverage.SubstitutedNames | app/src/tx_parser.c:64-77 | the eleven message types that are shown as words, and that nothing else is shown in another form |
| TxCoverage.SubstitutionsDiffer | app/src/tx_parser.c:64-77 | the words tell the types apart |
| TxItems.WordsShown | app/src/tx_parser.c:64-77 | the word that is shown for each message type |
| TxCoverage.FirstPageDecides | app/src/tx_display.c:253-306 | texts shown with the same first page are equal exactly if they agree behind it and both or neither are shown in another form |
| TxCoverage.HiddenText | app/src/tx_display.c:253-306 | that is when a leaf hidden by grouping has the very text of the first leaf of its group |
| TxCoverage.PrintedObjectIsRoot | app/src/json/json_parser.c:25-94 | the tokens of any JSON object's text, with any blanks, meet what the display lemmas ask of a transaction |
| TxPipeline.ShowPrinted | app/src/tx_display.c:502-537 | from text to screen: every JSON object, written with any blanks, that fits parses to the listing of its tree, and the query succeeds exactly for the indices the display answers, bringing the token and key of the screen each stands for |
| TxPipeline.ShowParsed | app/src/parser.c:590-601 | the same from the parsed tokens on: number of items first, then the query |
| TxValidate.Strcmp | app/src/tx_validate.c:138-144 | the byte comparison of two terminated buffers is the lexicographic order of their texts |
| TxValidate.IsSorted | app/src/tx_validate.c:88-145 | 1, -1 or 0 as two keys are in order, equal or neither, keys of 256 bytes or more being neither |
| TxValidate.LessIs | app/src/tx_validate.c:138-144 | the order of two texts is decided by the lesser character where they part, and a text comes before those it begins |
| TxValidate.DictionariesSorted | app/src/tx_validate.c:147-187 | accepts exactly when in every object each key is in order with the next |
| TxValidate.AllKeysIncrease | app/src/tx_validate.c:147-187 | then all keys of an object strictly increase, not only neighbours |
| TxValidate.LookUpIsMap | app/src/tx_validate.c:147-187 | so a lookup returns the value of the unique key of that name, or none if there is no such key |
| TxValidate.ContainsWhitespace | app/src/tx_validate.c:40-86 | passes exactly if no blank is between one character behind a token and the start of the next one, or the end of the first |
| TxValidate.Validate | app/src/tx_validate.c:189-240 | accepts exactly if one object spans the text, no blank is seen, all objects are sorted and the required fields are there; the error names the first field that is missing |
| TxSpacing.BlanksSeen | app/src/tx_validate.c:40-86 | which blanks of an object's text that check sees: those around keys and values, but not those that open an inner container, nor one behind a primitive or an empty container |
| TxSpacing.ValueScanned | app/src/tx_validate.c:56-84 | the same for any value in any place: it passes exactly if nothing is in front of its first token and it is tight, and where the scan stands then |
| TxCanonical.NodeSorted | app/src/tx_validate.c:147-187 | the token array has all objects sorted exactly if the tree it lists has |
| TxCanonical.OrderOfKeys | app/src/tx_validate.c:88-145 | two keys are in order if both have at most 255 bytes and the lesser character decides where they part |
| TxCanonical.RequiredNames | app/src/tx_validate.c:216-238 | the six required keys |
| TxCanonical.ValidIsCanonical | app/src/tx_validate.c:189-240 | of any JSON text the validation accepts exactly the canonical ones: an object and nothing around it, no blanks that are seen, keys of every object strictly increasing and short, required fields present |
| TxReview.GetItem | app/src/parser.c:571-619 | what an index brings: the screen it stands for with its key and a page of its value, or exactly which error |
| TxItems.TextShown | app/src/parser.c:602-609 | what is no amount is shown as its text, or that text's other form, cut to the page |
| TxItems.AmountShown | app/src/parser.c:144-173 | under the seven keys of amounts what formatting makes of the token is shown |
| TxItems.TransactionShown | app/src/parser.c:571-619 | key and value of every item of the transaction with two delegations, in every mode |
| TxItems.TransactionAccepted | app/src/parser.c:69-91 | that transaction is accepted, in every mode, exactly if its amounts can be formatted |
| TxReview.ValidateItems | app/src/parser.c:78-90 | asking for every item succeeds exactly if the chain's name is allowed, there are no more than 255 items, a fee to show, and every amount can be formatted |
| TxReview.Validate | app/src/parser.c:69-91 | a transaction is accepted exactly if it is valid and can be shown whole |
| TxReview.AcceptedItem | app/src/parser.c:588-601 | of what is accepted there is something to show, as many items as screens, and each index brings the screen with that index |
| TxReview.ReviewPrinted | app/src/parser.c:51-91 | for every JSON text: it is parsed and accepted exactly if it fits, is canonical, has an allowed chain and can be shown whole; then the number of items is that of the screens and the item for an index is the screen with that very index |
| TxSamples.EmptyFeeNotShown | app/src/tx_display.c:412-418 | with all required fields and an empty fee a transaction has an item without a screen, and is not accepted |
| TxSamples.ZeroChainRefused | app/src/tx_display.c:132-140 | with all required fields and a chain named 0 it is not accepted |
| TxSamples.SecondStringMissed | app/src/tx_parser.c:249-268 | of a memo that is an array of two strings the second is a leaf of the tree and no leaf for the display |
| TxSamples.TypesShownAsOne | app/src/tx_display.c:253-306 | of two messages with the types cosmos-sdk/MsgSend and Send the second type is on no screen |
| TxSamples.BlankUnseen | app/src/tx_validate.c:56-84 | a text with a blank that passes the check for whitespace |
| TxSamples.SampleAccepted | app/src/parser.c:69-91 | a transaction with a gas fee, a memo and no messages is accepted and has two screens |
| TextEscape.WriteEscape | app/src/tx_display.c:652-703 | one code point is written in its raw, letter, \xNN, \uXXXX or \UXXXXXXXX form, or the room does not suffice |
| TextEscape.Translate | app/src/tx_display.c:628-718 | succeeds exactly when the last code point is whole and the translation fits with a NUL behind it; then that is what the buffer holds |
| TextEscape.EscapeRead | app/src/tx_display.c:652-703 | every form can be told from the others and read back, whatever follows |
| TextEscape.TranslationInvertible | app/src/tx_display.c:628-718 | for every valid UTF-8 text the decoder recovers its code points from the translation, marker included |
| TextEscape.TranslationPrintable | app/src/tx_display.c:652-703 | whatever the bytes, only ASCII characters from the blank on are written |
| TextEscape.EscapeSizes | app/src/tx_display.c:652-703 | which code points are written raw, with a letter, and with two, four or eight digits |
| TextEscape.FinalBlank | app/src/tx_display.c:706-712 | a translation ends in a blank exactly if the last code point is a blank and the last byte neither that nor an at sign |
| TextEscape.ValidNeverEndsInBlank | app/src/tx_display.c:706-712 | so the translation of valid UTF-8 does not end in a blank |
| TextEscape.OverlongBlank | app/src/tx_display.c:643-650 | two bytes whose translation does |
| TextEscape.KnownEscapes | app/src/tx_display.c:652-703 | escapes of each length written out |
| TextEscape.CodePointsInvertsUtf8 | app/src/tx_display.c:643-650 | decoding valid UTF-8 gives its code points |
| Keccak.ThetaInPlace | deps/tinykeccak/keccak-tiny.c:57-64 | the two loops are the theta step on the whole state |
| Keccak.RhoPiInPlace | deps/tinykeccak/keccak-tiny.c:66-71 | the chain with one temporary is rho and pi applied to all lanes at once |
| Keccak.ChiInPlace | deps/tinykeccak/keccak-tiny.c:73-78 | row by row with five temporaries is the chi step on the whole state |
| Keccak.Permute | deps/tinykeccak/keccak-tiny.c:50-82 | the permutation in place is the 24 rounds of the standard |
| Keccak.ChainSteps | deps/tinykeccak/keccak-tiny.c:19-28 | the pi table is the path from lane to lane of the standard, and the rho table its triangular offsets in that order |
| Keccak.ConstantsGenerated | deps/tinykeccak/keccak-tiny.c:29-36 | the round constants are those the standard's shift register generates |
| KeccakBits.ThetaFlips | deps/tinykeccak/keccak-tiny.c:57-64 | theta flips a bit exactly if the parities of the two columns of section 3.2.1 of FIPS 202 differ |
| KeccakBits.RhoTurns | deps/tinykeccak/keccak-tiny.c:66-71 | rho moves the bits of each lane by the offset of section 3.2.2 |
| KeccakBits.PiMoves | deps/tinykeccak/keccak-tiny.c:66-71 | pi moves the lanes as section 3.2.3 says |
| KeccakBits.ChiFlips | deps/tinykeccak/keccak-tiny.c:73-78 | chi flips a bit exactly if the next one in its row is 0 and the one after that is 1 |
| KeccakBits.IotaFlips | deps/tinykeccak/keccak-tiny.c:79-80 | iota flips the bits of one lane at the places 2^j - 1 where the register of section 3.2.5 says |
| KeccakBits.RoundsAreBits | deps/tinykeccak/keccak-tiny.c:50-82 | the rounds on lanes are the rounds of section 3.3 on bits |
| KeccakHash.LanesOfBuffer | deps/tinykeccak/keccak-tiny.c:50-51 | lanes stored into the byte buffer are read back from it unchanged |
| KeccakHash.PermuteBuffer | deps/tinykeccak/keccak-tiny.c:50-82 | the permutation of the byte buffer |
| KeccakHash.PaddedTail | deps/tinykeccak/keccak-tiny.c:139-143 | XORing delimiter, final bit and tail into the buffer is XORing in the padded last block, also when both bits share a byte |
| KeccakHash.ComputeHash | deps/tinykeccak/keccak-tiny.c:124-151 | for every message and output length the hash is the sponge of the padded message |
| KeccakHash.SqueezeInto | deps/tinykeccak/keccak-tiny.c:144-148 | the output is squeezed block by block to any length |
| KeccakSponge.PermutedHolds | deps/tinykeccak/keccak-tiny.c:50-82 | the permutation of the byte buffer is the standard's on the bits that the buffer holds |
| KeccakSponge.HashBits | deps/tinykeccak/keccak-tiny.c:124-151 | every bit of the hash of any message, to any length, is the one the sponge of section 4 of FIPS 202 puts out, with rate 1088 and Keccak's padding |
| Apdu.App.ExtractHrp | app/src/apdu_handler.c:73-96 | a prefix is taken exactly when its length is allowed and all of it was sent |
| Apdu.App.ExtractHdPath | app/src/apdu_handler.c:98-126 | the path is overwritten once it was sent whole, and accepted exactly when its values are allowed |
| Apdu.App.ExtractHdPathHrp | app/src/apdu_handler.c:128-145 | path and encoding of an initialisation, with the default for none sent |
| Apdu.App.ProcessChunk | app/src/apdu_handler.c:147-189 | each kind of chunk in each phase, and which of them completes a transaction |
| Apdu.App.HandleSign | app/src/apdu_handler.c:226-283 | a complete transaction is parsed and goes under review, or the command fails |
| Apdu.App.HandleGetAddr | app/src/apdu_handler.c:191-224 | an address is answered at once or goes under review, only when idle |
| Apdu.App.HandleApdu | app/src/apdu_handler.c:285-345 | the dispatch, and the return to idle on errors but not on refusals |
| Apdu.App.Approve | app/src/common/actions.h:35-85 | the callback set up last runs: a signature is over the buffer, path and encoding there are now |
| Apdu.InitAcceptsAllowed | app/src/apdu_handler.c:98-145 | an initialisation is accepted exactly if path and prefix are allowed, and sets what its data say |
| ApduReplies.InitSets | app/src/apdu_handler.c:128-161 | an accepted initialisation empties the buffer and sets the path sent and the encoding of its chain |
| ApduReplies.RepliesExpected | app/src/apdu_handler.c:285-345 | every command gets the reply of a table of its bytes, the phase, and the device's answers, and that decides the phase |
| ApduReplies.LastChunkReviewed | app/src/apdu_handler.c:226-283 | a transaction goes under review exactly if the last chunk comes while receiving and fits, the parser accepts it, a public key could be derived, and expert mode is on if the path is Ethereum's; what is reviewed is what was sent |
| Apdu.HandleConsistent | app/src/apdu_handler.c:147-283 | every command keeps the state consistent with what was sent |
| Apdu.EveryRunIsConsistent | app/src/apdu_handler.c:285-345 | over every run of commands and decisions, under review the buffer is the concatenation of the payloads since the last initialisation, is what was parsed, and path and encoding are those sent with it |
| Apdu.ApprovalSigns | app/src/common/actions.h:35-54 | over every run an approval signs exactly if a transaction went under review that no decision or address has replaced, and signs what was sent and parsed then exactly if nothing was overwritten since by the commands and their replies, or only with the same |
| Apdu.SignsWhatWasSent | app/src/common/actions.h:35-54 | approving a transaction still under review signs exactly what was sent and parsed |
| Apdu.DecisionIdles | app/src/common/actions.h:35-85 | over every run a decision ends the review it is about, a rejection or a reset whatever is going on, and none of them touches what would be signed |
| Apdu.OnlyAcceptedSigned | app/src/apdu_handler.c:258-270 | over every run, if an approval would sign something, the last chunk that put a transaction under review came with the parser's acceptance |
| Apdu.ApprovalAfterError | app/src/apdu_handler.c:324-342 | after an error during the review and a new initialisation the approval signs the empty buffer under the new path |
| Apdu.UnparsedSigned | app/src/apdu_handler.c:324-342 | a run of four commands after which what is signed was not parsed |
| Apdu.DecisionEndsReview | app/src/common/actions.h:68-73 | after an approval or a rejection, whose callback the interface runs once, nothing is signed until a last chunk comes in again |
| Apdu.ResetEndsSending | app/src/apdu_handler.c:320-323 | after a reset of the connection further chunks are refused without effect, but an approval still signs what it would have signed |
| Apdu.ReviewUntouched | app/src/apdu_handler.c:324-340 | no command during a review changes what is reviewed, and it stays under review exactly if the command gets no error |

## Left out

- CborEncoder.Encoder.Init: an encoder that starts without a buffer, and the writer-callback mode.
- CborEncoder.Encoder.Append: lengths of 2^31 bytes and more, which wrap in a ptrdiff_t.
- CborEncoder.Encoder.GetExtraBytesNeeded: a shortage of 2^31 bytes and more, for the same reason.
- CborParser.Value.PreparseValue: iterators over an external reader; which error malformed bytes get, here and in all reading.
- CborValidation.Validate: the flags for UTF-8, undefined and finite values, and known simple types; which error it gives.
- CborValidation.ValidateTag: the flags for known tags and their use, and for no tags.
- CborValidation.ValidateContainer: the flags for sorted, unique and textual map keys.
- ByteDumps.DumpBase64: failing allocation, and the rest of the CBOR to JSON conversion.
- The meaning of floating-point numbers: they are bit patterns throughout.
- The comparisons and searches over CBOR strings and maps, and duplication of strings.
- Jsmn.Parser.Parse: the mode without a token array, strict mode, and parent links.
- JsonNav.ParseJson: null arguments.
- TxParser.TxObject.GetToken: the zxlib function that cuts values into pages is modelled by its effect, with unbounded page counts.
- TxParser.TxObject.TraverseFind: a transaction object without a text.
- TxDisplay.Display.IndexRootFields: transactions that set the extra depth level.
- TxDisplay.Display.CountSubitems: the display cache's tables are sequences the methods reassign, and a value buffer is a returned string.
- TxDisplay.Display.RetrieveTreeIndexes: the indexing calls the source repeats in every helper, which have nothing to do once the root fields are indexed.
- TxReview.GetItem: the formatting of amounts, which is a parameter, and the friendly name that replaces a key.
- TxReview.Validate: null arguments, and transactions in textual mode.
- TextEscape.Translate: a destination of the greatest 16-bit length; the first bytes of invalid UTF-8 sequences count as code points of their own.
- KeccakHash.ComputeHash: null arguments.
- Apdu.App.TxAppend: the division of the buffer between RAM and flash; a short append leaves the buffer as it was.
- Apdu.DecisionEndsReview: that the callback runs once is what the user interface does; the model clears it.
- Apdu.App.HandleApdu: swap mode, the contents of replies, and the prefix kept for addresses.
- The textual mode's screens: tables and foreign formatting.
- Addresses, key derivation, signatures and chain tables beyond the prefix list: foreign code.
