# t_cose COSE_Sign1 verification, modelled in Dafny

This project models the verifier side of t_cose, `src/t_cose_sign1_verify.c`.
That file checks a COSE_Sign1 message as defined in section 4.2 of RFC 8152. It:

- decodes the tagged array of four elements;
- parses the protected headers (a byte string that wraps a CBOR map) and the
  unprotected header map;
- collects, in fixed-size lists, the elements of the crit header parameter
  and, for each header parameter it does not know, that parameter's value
  (its label was meant, see below);
- hashes the to-be-signed structure;
- checks the signature in one of two ways. If the kid is the fixed
  "short-circuit" key identifier and the caller allowed it, the signature
  must simply start with the hash. Otherwise the public-key verifier is called.

The CBOR decoder is modelled as a stream of already decoded items. Each item
reports its nesting level and the nesting level of the item after it, and is
read through a cursor (`Cbor.Decoder`, a class whose `pos` field advances).
The header lists are a class holding two arrays of `T_COSE_HEADER_LIST_MAX + 1`
slots. The arrays are updated in place.

The C functions that loop or update state are methods. Each one is proved
equal to a pure function of the stream and the old state:

- `ConsumeItem` against `Consume`;
- `ParseCriticalHeaders` against `ParseCritical`;
- `ParseCoseHeaders` against `ParseHeaders`;
- `Verify` against `VerifyStream`.

Lemmas then state what those functions mean without mentioning their loops.
For example, a successful header parse has read exactly one map, whose
entries were each accepted and found room. The headers it returns are those
entries applied in order to the zeroed headers, and the converse also holds.

The model follows the code as written, including these behaviours:

- `add_header_label_to_list` files an item by its value (`uDataType`, `val`),
  not by its label. An unknown header whose value is neither an integer nor a
  byte string is therefore refused with CBOR_STRUCTURE, and an integer value
  of 0 is written over a terminator and lost.
- The crit case has no `break`. After the crit array has been read, control
  falls through to `process_unknown_header`, which refuses the array value.
  So a message with a crit header never parses. The critical list is still
  empty when `check_critical_headers` runs, and UNKNOWN_CRITICAL_HEADER is
  never returned (`HeaderProperties.ParseHeadersNeverUnknownCritical`,
  `Sign1Verify.VerifyNeverUnknownCritical`).
- Partial IV writes the `iv` field. `partial_iv` and `content_type` stay zero.
- A non-integer alg value returns the literal code 99 (`Cose.ALG_NOT_INTEGER`).
- The alg range check only rejects 0 and values above `INT32_MAX`. The value
  is then cast to `int32_t`, so a value such as -2^32 passes and becomes the
  reserved value 0 (`HeaderProperties.AlgCastWraps`).
- The comment on `parse_protected_headers` (src/t_cose_sign1_verify.c:483-486)
  promises an error when the algorithm ID is missing or below `INT32_MIN`.
  The code rejects neither. A protected map without an alg entry parses
  successfully with the reserved algorithm 0
  (`HeaderProperties.ParseHeadersWithoutAlg`). The model follows the code.
- The payload out-parameter is written as soon as the payload element has
  been read, so later failures still hand it back.

The module `IntendedHeaders` holds the header-map parse as the comments in
the source say it should work. There an unknown header is filed by its label,
and the crit case stops after its array. The crit array is read up to its
own end, and the map loop tests the nesting level that follows the entry just
processed. Its partner is `MapKeys`, a walk over the map that collects the
labels of the unknown entries and the elements of the crit array as sets,
with no capacity limit. The lemma `FixedParseFlagsCritical` proves that the
corrected parse, whenever it reaches the critical-header check, reports
UNKNOWN_CRITICAL_HEADER exactly when some unknown label of the map is listed
in its crit array.

## Model

| member | source | states |
|---|---|---|
| Cose.Int32Wrap | src/t_cose_sign1_verify.c:410-415 | the cast to `int32_t` lands in the 32-bit range, agrees with the value modulo 2^32 and keeps every value already in range |
| Cbor.Decoder.GetNext | src/t_cose_sign1_verify.c:384-392 | a fetch hands out the next item and advances, or at the end reports the stream's error with a NONE item and leaves the cursor |
| Cbor.Decoder.Finish | src/t_cose_sign1_verify.c:505-509 | finishing succeeds exactly when every item was consumed |
| ItemSkipper.ConsumeSkipsSubtree | src/t_cose_sign1_verify.c:68-103 | a non-container costs no read and passes its own next level; a container is skipped through the first item whose next level drops below its own, else the decoder error is passed on at the end of input |
| ItemSkipper.ConsumeItem | src/t_cose_sign1_verify.c:68-103 | the loop leaves the error, cursor and next nesting level that `Consume` specifies |
| HeaderLists.AddLabel | src/t_cose_sign1_verify.c:277-313 | the value goes into the first terminator slot of the matching array and nothing else changes; TOO_MANY_HEADERS exactly when no terminator is left; CBOR_STRUCTURE exactly for values of any other type, leaving the lists unchanged |
| HeaderLists.AddIntAppends | src/t_cose_sign1_verify.c:287-297 | on a packed list, adding an integer appends it to what a scan sees (a 0 is lost); the list is full exactly when all 11 slots hold entries; it stays packed |
| HeaderLists.AddStrAppends | src/t_cose_sign1_verify.c:298-306 | on a packed list, adding a byte string appends it to what a scan sees; full exactly when all 11 slots hold entries; it stays packed |
| HeaderLists.HeaderList.Add | src/t_cose_sign1_verify.c:277-313 | the in-place scan and write leaves the status and array contents that `AddLabel` gives on the old contents |
| HeaderLists.HeaderList.Clear | src/t_cose_sign1_verify.c:155-160 | every slot holds the terminator (0, NULL view) afterwards |
| HeaderLists.ScanAsWritten | src/t_cose_sign1_verify.c:289 | the free-slot scan as written stops at the first 0 word, reading past the slots when there is none |
| HeaderLists.IntWords | src/t_cose_sign1_verify.c:147-152 | the words the integer scan reads: the 11 slots, then the first word of `tstr_headers[0]`, non-zero (1) exactly when a byte string is listed |
| HeaderLists.IntScanOverruns | src/t_cose_sign1_verify.c:287-295 | with 11 integers listed and a byte string listed, the scan as written passes slot 11, so the full-list test misses, where the bounded scan reports TOO_MANY_HEADERS |
| HeaderLists.CheckCriticalHeaders | src/t_cose_sign1_verify.c:235-274 | UNKNOWN_CRITICAL_HEADER exactly when a label before the terminator in the unknown list also occurs before the terminator in the critical list, else success |
| HeaderLists.ClearedCriticalPasses | src/t_cose_sign1_verify.c:235-274 | an empty critical list lets any unknown list through |
| CriticalHeaders.CritLoop | src/t_cose_sign1_verify.c:189-224 | the loop stays within the stream, keeps both lists at 11 slots, and reports only success, CBOR_STRUCTURE, TOO_MANY_HEADERS, or NOT_WELL_FORMED at the end of input |
| CriticalHeaders.CritLoopSuccess | src/t_cose_sign1_verify.c:189-224 | on success the lists hold the integer and byte-string elements read, in order, in the leading slots, with terminators after them |
| CriticalHeaders.CritLoopLastItem | src/t_cose_sign1_verify.c:202-216 | every element before the last one read is an integer or byte string; CBOR_STRUCTURE exactly when the last one is not |
| CriticalHeaders.CritLoopFull | src/t_cose_sign1_verify.c:202-212 | unless the stream ran out, TOO_MANY_HEADERS exactly when the last item read is an integer or byte string whose kind already had 11 elements |
| CriticalHeaders.ParseCriticalOutcome | src/t_cose_sign1_verify.c:171-229 | success: every item read is an integer or byte string, at most 11 of each, and the list holds them in order; CBOR_STRUCTURE: only the last item read is of another type; unless the stream ran out, TOO_MANY_HEADERS exactly when the last item read is an integer or byte string whose kind already had 11 entries |
| CriticalHeaders.CritLoopStopsOnLevelChange | src/t_cose_sign1_verify.c:219-224 | once a level is recorded, success means every item read before the last was at that level and the last one, already stored, was not |
| CriticalHeaders.ParseCriticalStopsOnLevelChange | src/t_cose_sign1_verify.c:195-224 | the level is taken from the first element read, and success comes only after reading and storing an item at another level, so the loop reads one item beyond a run at the first level |
| CriticalHeaders.ParseCriticalHeaders | src/t_cose_sign1_verify.c:171-229 | the loop over the decoder and the in-place list leaves the status, cursor and list contents `ParseCritical` gives |
| HeaderParser.ProcessUnknownHeader | src/t_cose_sign1_verify.c:326-347 | adding the value and consuming the entry leaves the status, cursor, nesting level and list contents `ProcessUnknown` gives |
| HeaderParser.ParseEntry | src/t_cose_sign1_verify.c:394-459 | one map entry through the label switch leaves the status, cursor, headers and both lists `EntryStep` gives |
| HeaderParser.ParseEntries | src/t_cose_sign1_verify.c:387-462 | the entry loop, then the critical check, leaves the result `HeadersLoop` gives |
| HeaderParser.ParseCoseHeaders | src/t_cose_sign1_verify.c:350-467 | parsing from the cursor leaves the status, headers and cursor `ParseHeaders` gives |
| HeaderParser.ParseProtectedHeaders | src/t_cose_sign1_verify.c:488-514 | decoding the protected bytes yields the status and algorithm `ParseProtected` gives |
| HeaderProperties.ProcessUnknownOutcome | src/t_cose_sign1_verify.c:326-347 | a value that is neither an integer nor a byte string is refused with CBOR_STRUCTURE before any read; otherwise success exactly when a slot of its kind is free, in which case the value is appended and nothing more is read |
| HeaderProperties.EntryOutcome | src/t_cose_sign1_verify.c:394-459 | an entry succeeds exactly when its label accepts its value (crit never) and, if unknown, it finds room; it then reads nothing more, updates the headers, leaves the critical list alone and appends to the unknown list; it never reports UNKNOWN_CRITICAL_HEADER |
| HeaderProperties.EntryRejections | src/t_cose_sign1_verify.c:394-459 | a refused entry's status: 99 for a non-integer alg, UNSUPPORTED_SIGNING_ALG for alg 0 or above INT32_MAX, SIGN1_FORMAT for a kid, IV or Partial IV that is not a byte string or a crit that is not an array, the crit parse's failure or else CBOR_STRUCTURE for a crit array, CBOR_STRUCTURE or TOO_MANY_HEADERS for an unknown entry with a value of the wrong type or no free slot |
| HeaderProperties.EntryRefused | src/t_cose_sign1_verify.c:394-459 | an entry that is refused, or finds no room, fails with its refusal status (its label case's code, CBOR_STRUCTURE or TOO_MANY_HEADERS) |
| HeaderProperties.LoopInvStep | src/t_cose_sign1_verify.c:387-459 | a step succeeds exactly when the entry fits, and success keeps headers, unknown list and cursor in step with the entries read |
| HeaderProperties.LoopInvAdvance | src/t_cose_sign1_verify.c:387-459 | a fitting entry applied to the headers and appended to the unknown list moves the loop state on by one entry |
| HeaderProperties.LoopSuccess | src/t_cose_sign1_verify.c:387-462 | a successful loop has read exactly the map's entries, each accepted and fitting, and returns them applied in order |
| HeaderProperties.LoopComplete | src/t_cose_sign1_verify.c:387-462 | conversely, when the map's entries all fit, the loop succeeds at the map's end with them applied |
| HeaderProperties.LoopRefusesHere | src/t_cose_sign1_verify.c:387-459 | an entry inside the map that does not fit ends the loop with its refusal status |
| HeaderProperties.LoopRefuses | src/t_cose_sign1_verify.c:387-459 | the first entry of the map that does not fit decides the loop's status: its refusal status |
| HeaderProperties.LoopRunsOut | src/t_cose_sign1_verify.c:387-392 | a stream that ends inside the map, every entry having fit, gives CBOR_NOT_WELL_FORMED |
| HeaderProperties.LoopNeverUnknownCritical | src/t_cose_sign1_verify.c:441-462 | the loop never reports UNKNOWN_CRITICAL_HEADER, since the critical list is still clear when it is checked |
| HeaderProperties.ClearedIsEmpty | src/t_cose_sign1_verify.c:155-160 | a cleared list is packed and a scan sees no entries in it |
| HeaderProperties.LoopInvInit | src/t_cose_sign1_verify.c:368-387 | the loop starts in step: zeroed headers and both lists clear |
| HeaderProperties.ParseHeadersNeverUnknownCritical | src/t_cose_sign1_verify.c:350-467 | header parsing never reports UNKNOWN_CRITICAL_HEADER |
| HeaderProperties.ParseHeadersSuccess | src/t_cose_sign1_verify.c:350-467 | success only on a map whose entries are each accepted and fit, returning them applied in order to the zeroed headers |
| HeaderProperties.ParseHeadersComplete | src/t_cose_sign1_verify.c:350-467 | a map whose entries all fit is parsed successfully to its end |
| HeaderProperties.ParseHeadersRefuses | src/t_cose_sign1_verify.c:350-467 | header parsing fails with the refusal status of the map's first entry that does not fit (UNSUPPORTED_SIGNING_ALG for alg 0 or above INT32_MAX, SIGN1_FORMAT for a kid that is not a byte string, and so on) |
| HeaderProperties.ParseHeadersRunsOut | src/t_cose_sign1_verify.c:350-467 | header parsing on a map the stream ends inside of, every entry fitting, gives CBOR_NOT_WELL_FORMED |
| HeaderProperties.ParseHeadersRejectsNonMap | src/t_cose_sign1_verify.c:374-381 | a bucket that is not a map gives CBOR_STRUCTURE with zeroed headers |
| HeaderProperties.FoldKeepsAlg | src/t_cose_sign1_verify.c:403-459 | entries without an alg label leave the algorithm as it was |
| HeaderProperties.ParseHeadersWithoutAlg | src/t_cose_sign1_verify.c:368-416 | a successful parse of a map without an alg entry leaves the reserved algorithm 0 |
| HeaderProperties.FoldKeepsPartialIv | src/t_cose_sign1_verify.c:433-439 | no entry writes the Partial IV or the content type field |
| HeaderProperties.AlgCastWraps | src/t_cose_sign1_verify.c:405-416 | every negative multiple of 2^32 within int64 (-2^32 among them) passes the range check as an alg value and leaves the reserved algorithm 0 |
| HeaderProperties.ParseProtectedSuccess | src/t_cose_sign1_verify.c:488-514 | never UNKNOWN_CRITICAL_HEADER; success only when the bytes decode to exactly one map whose entries fit, with the algorithm those entries leave |
| HeaderProperties.ParseProtectedComplete | src/t_cose_sign1_verify.c:488-514 | conversely, bytes that decode to exactly one map whose entries fit give success with the algorithm those entries leave |
| HeaderProperties.ParseProtectedLeftover | src/t_cose_sign1_verify.c:500-509 | a well-formed map followed by further items gives CBOR_NOT_WELL_FORMED |
| HeaderProperties.ParseProtectedPassesError | src/t_cose_sign1_verify.c:500-503 | a failure of the header map is passed on unchanged |
| IntendedHeaders.LabelAsValue | src/t_cose_sign1_verify.c:287-305 | an entry's label handed to the add in place of its value files exactly the label's key |
| IntendedHeaders.AddKeys | src/t_cose_sign1_verify.c:277-313 | on a packed list, a successful add of an integer or byte string adds exactly its key (none for 0) to the labels the list holds, and keeps the list packed |
| IntendedHeaders.SharesKeys | src/t_cose_sign1_verify.c:235-274 | the two lists share a label as the check's scans see them exactly when their sets of labels meet |
| IntendedHeaders.CritArray | src/t_cose_sign1_verify.c:171-229 | the crit array read only to its own end: success, TOO_MANY_HEADERS, CBOR_STRUCTURE or CBOR_NOT_WELL_FORMED, within the stream |
| IntendedHeaders.CritArrayKeys | src/t_cose_sign1_verify.c:171-229 | on success the list holds exactly the keys of the array's elements, and reading stops where the array ends |
| IntendedHeaders.FixedEntryStep | src/t_cose_sign1_verify.c:394-459 | one entry with a `break` after crit and unknown headers filed by label never reports UNKNOWN_CRITICAL_HEADER |
| IntendedHeaders.FixedCritStep | src/t_cose_sign1_verify.c:441-450 | a crit entry replaces the critical labels with its array's elements and leaves the walk where the array ends |
| IntendedHeaders.FixedKnownStep | src/t_cose_sign1_verify.c:403-439 | alg, kid, IV and Partial IV leave both lists alone and take one item |
| IntendedHeaders.FixedUnknownStep | src/t_cose_sign1_verify.c:451-459 | an unknown entry adds its label to the unknown labels and its value is skipped |
| IntendedHeaders.FixedLoopFlags | src/t_cose_sign1_verify.c:387-462 | when the corrected loop reaches the check, it ends where the walk ends and reports UNKNOWN_CRITICAL_HEADER exactly when an unknown label met is a critical one |
| IntendedHeaders.FixedParseFlagsCritical | src/t_cose_sign1_verify.c:350-467 | when the corrected parse reaches the check, it read a map and reports UNKNOWN_CRITICAL_HEADER exactly when an unknown label of the map is listed in its crit array |
| IntendedHeaders.CritExampleDiffers | src/t_cose_sign1_verify.c:441-462 | on the map `{2: [7], 7: 1}` the parse as written gives CBOR_STRUCTURE and the corrected parse UNKNOWN_CRITICAL_HEADER |
| Sign1Verify.Head | src/t_cose_sign1_verify.c:49-50 | the first n bytes of a view, or NULL when the view is NULL or shorter |
| Sign1Verify.ShortCircuitVerify | src/t_cose_sign1_verify.c:40-64 | SIG_VERIFY or success; success exactly when the signature is not NULL and starts with the hash |
| Sign1Verify.Verify | src/t_cose_sign1_verify.c:519-653 | decoding the message step by step leaves the status and payload view `VerifyStream` gives |
| Sign1Verify.VerifySuccess | src/t_cose_sign1_verify.c:555-653 | success implies a tagged array of four, both header buckets parsed, a kid if required, byte-string payload and signature, a hash, and acceptance by the verifier the kid selects (short-circuit only with the option set); the payload handed back is the payload element |
| Sign1Verify.ShortCircuitNeedsOptIn | src/t_cose_sign1_verify.c:623-631 | with the short-circuit kid and without the allow option, verification never succeeds, and once the earlier steps pass the result is SHORT_CIRCUIT_SIG with the payload |
| Sign1Verify.VerifyRejectsUnframed | src/t_cose_sign1_verify.c:559-566 | a first item that is not a COSE_Sign1-tagged array of four gives SIGN1_FORMAT and a NULL payload |
| Sign1Verify.VerifyRejectsProtectedType | src/t_cose_sign1_verify.c:569-574 | a protected bucket that is not a byte string gives SIGN1_FORMAT and a NULL payload |
| Sign1Verify.VerifyPassesProtectedError | src/t_cose_sign1_verify.c:578-581 | a failure of the protected headers is returned unchanged with a NULL payload |
| Sign1Verify.VerifyPassesUnprotectedError | src/t_cose_sign1_verify.c:584-586 | a failure of the unprotected headers is returned unchanged with a NULL payload |
| Sign1Verify.VerifyRequiresKid | src/t_cose_sign1_verify.c:587-591 | with REQUIRE_KID and no kid the result is NO_KID with a NULL payload |
| Sign1Verify.VerifyRejectsPayloadType | src/t_cose_sign1_verify.c:595-599 | a payload element that is not a byte string gives SIGN1_FORMAT and a NULL payload |
| Sign1Verify.VerifyRejectsSignatureType | src/t_cose_sign1_verify.c:600-609 | a signature element that is not a byte string gives SIGN1_FORMAT, with the payload already set |
| Sign1Verify.VerifyPassesHashError | src/t_cose_sign1_verify.c:613-621 | a hashing failure is returned unchanged, with the payload |
| Sign1Verify.VerifyShortCircuit | src/t_cose_sign1_verify.c:623-636 | the short-circuit kid with the allow option gives the short-circuit verifier's result on the hash and signature |
| Sign1Verify.VerifyPublicKey | src/t_cose_sign1_verify.c:644-650 | any other kid gives the public-key verifier's result on the algorithm, key, kid, hash and signature |
| Sign1Verify.VerifyComplete | src/t_cose_sign1_verify.c:555-653 | conversely to VerifySuccess, when every step passes and the selected verifier accepts, the result is success with the payload element |
| Sign1Verify.PayloadWrittenEarly | src/t_cose_sign1_verify.c:594-609 | success always returns a payload; a non-NULL payload means the headers parsed and the payload element was a byte string, and a missing or wrongly typed signature then gives SIGN1_FORMAT |
| Sign1Verify.VerifyNeverUnknownCritical | src/t_cose_sign1_verify.c:576-653 | unless the hash or public-key collaborator reports it, verification never fails with UNKNOWN_CRITICAL_HEADER |

## Left out

- CBOR decoding from bytes is not modelled. The model covers neither how
  QCBOR tokenises, tag processing (`QCBORDecode_IsTagged` becomes one boolean
  on the item), indefinite lengths, nor errors met partway through; a stream
  ends with a single error code.
- `create_tbs_hash`, `t_cose_crypto_pub_key_verify` and `get_short_circuit_kid`
  are parameters of the model (`Sign1Verify.Env`), not code.
  `t_cose_crypto.h` and `t_cose_util.c` are not part of this model. Nor are the
  hash, the Sig_structure encoding and its payload-mode argument.
- The `T_COSE_DISABLE_SHORT_CIRCUIT_SIGN` build, which skips the short-circuit
  branch, is not modelled. Only the default build is.
- Nesting levels are unbounded naturals, not `uint8_t`, and integer values in
  the lists are unbounded integers rather than `uint64_t` casts of `int64_t`
  values. Both casts are one-to-one, so comparisons are unaffected.
- The scans in `add_header_label_to_list` (src/t_cose_sign1_verify.c:289, 299)
  and `check_critical_headers` (:247-262) stop only at a terminator. On a list
  whose 11 slots are full, the C reads on past the array. Unless the next word
  happens to be 0 or NULL, the full-list test at :290/:300 misses and
  :295/:305 write outside the array. The model replaces that out-of-bounds
  read and write with TOO_MANY_HEADERS at slot 11 and the check's scans with
  scans bounded at 11 slots. The integer case is recorded under "Findings".
- Out-parameters the C leaves unwritten on an error path are 0 or NULL in the
  model, for example the next nesting level after a decoder error.
- Stack use and the `memset` of whole structures are not modelled.
- `QCBORDecode_Finish` is modelled only as the check that every item was consumed.
- `IntendedHeaders` is not used by `Sign1Verify.Verify`, which models the
  code as written. The corrected parse also keeps the code's choice of byte
  strings, not text strings, as the string labels, and cannot hold the
  label or element 0, which is the list terminator.

## Findings

| source | as written | input that shows it | evidently intended | confidence | as-written member | corrected member |
|---|---|---|---|---|---|---|
| src/t_cose_sign1_verify.c:289-295 | the free-slot scan over `int_headers` stops only at a 0 word, and the full test compares its index with exactly 11 | an unprotected map with one unknown entry whose value is a byte string, then twelve unknown entries with non-zero integer values: at the twelfth the 11 slots are full, the scan reads the non-NULL pointer of `tstr_headers[0]` as a twelfth slot and goes past 11, and the value is written outside `int_headers` | the scan stops after 11 slots and the entry is refused with TOO_MANY_HEADERS | high; not executed | HeaderLists.IntScanOverruns | HeaderLists.AddIntAppends |
| src/t_cose_sign1_verify.c:287-305, 441-462 | unknown headers are filed by their value, and the crit case falls through to the unknown-header path, which refuses its array value, so no crit entry is ever accepted and the critical list is empty when it is checked | the header map `{2: [7], 7: 1}`: crit lists label 7 and an unknown header 7 is present, yet the map is refused with CBOR_STRUCTURE (`IntendedHeaders.CritExampleDiffers`); with crit as the last entry of a protected map the crit loop reads past the array and the result is CBOR_NOT_WELL_FORMED instead | crit labels are collected up to the end of their array, with a `break` after crit; unknown headers are filed by label; the loop tests the level after each entry; the check then fails exactly when an unknown label of the map is listed as critical | high; not executed | HeaderProperties.ParseHeadersNeverUnknownCritical | IntendedHeaders.FixedParseFlagsCritical |
