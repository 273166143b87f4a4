/** Parsing one COSE header map (`parse_cose_headers`, with
    `process_unknown_header`) and the protected-header bucket
    (`parse_protected_headers`). */
module HeaderParser {
  import opened Cbor
  import opened Cose
  import opened HeaderLists
  import opened ItemSkipper
  import opened CriticalHeaders

  /** `struct t_cose_headers`. Both the IV and the Partial IV parameter are
      stored in `iv`; `partialIv` and `contentType` are never written. */
  datatype Headers = Headers(algId: int, kid: Buf, iv: Buf, partialIv: Buf, contentType: Buf)

  /** The headers after the `memset` to zero: alg is the reserved value 0 and
      every view is NULL. */
  const ZeroHeaders := Headers(COSE_ALGORITHM_RESERVED, NullBuf, NullBuf, NullBuf, NullBuf)

  datatype UnknownResult = UnknownResult(status: Status, pos: nat, unknown: LabelLists, nextNestLevel: nat)

  /** `process_unknown_header` on a stream positioned just after `item`: the
      item goes into the unknown list, then the rest of it is consumed. Where
      the source leaves the nesting level unwritten it is 0 here. */
  function ProcessUnknown(s: Stream, pos: nat, item: Item, unknown: LabelLists): (r: UnknownResult)
    requires pos <= |s.items| && WellSized(unknown)
    ensures pos <= r.pos <= |s.items| && WellSized(r.unknown)
  {
    var a := AddLabel(unknown, item);
    if a.status != Success then UnknownResult(a.status, pos, unknown, 0)
    else
      var c := Consume(s, pos, item);
      if c.err != QCBOR_SUCCESS then UnknownResult(CborNotWellFormed, c.pos, a.lists, 0)
      else UnknownResult(Success, c.pos, a.lists, c.nextNestLevel)
  }

  datatype EntryResult = EntryResult(status: Status, pos: nat, headers: Headers, unknown: LabelLists, critical: LabelLists)

  /** One pass of the loop body of `parse_cose_headers`, for the map entry
      `item` just fetched, with the stream positioned after it: the known
      labels alg, kid, IV, Partial IV and crit are checked and stored, every
      other label is processed as unknown. */
  function EntryStep(s: Stream, pos: nat, item: Item, h: Headers, unknown: LabelLists, critical: LabelLists): (r: EntryResult)
    requires pos <= |s.items| && WellSized(unknown) && WellSized(critical)
    ensures pos <= r.pos <= |s.items| && WellSized(r.unknown) && WellSized(r.critical)
  {
    if item.labelType != TypeInt64 then
      var u := ProcessUnknown(s, pos, item, unknown);
      EntryResult(u.status, u.pos, h, u.unknown, critical)
    else if item.intLabel == COSE_HEADER_PARAM_ALG then
      if item.dataType != TypeInt64 then EntryResult(ALG_NOT_INTEGER, pos, h, unknown, critical)
      else if item.intVal == COSE_ALGORITHM_RESERVED || item.intVal > INT32_MAX then
        EntryResult(UnsupportedSigningAlg, pos, h, unknown, critical)
      else EntryResult(Success, pos, h.(algId := Int32Wrap(item.intVal)), unknown, critical)
    else if item.intLabel == COSE_HEADER_PARAM_KID then
      if item.dataType != TypeByteString then EntryResult(Sign1Format, pos, h, unknown, critical)
      else EntryResult(Success, pos, h.(kid := Bytes(item.strVal)), unknown, critical)
    else if item.intLabel == COSE_HEADER_PARAM_IV then
      if item.dataType != TypeByteString then EntryResult(Sign1Format, pos, h, unknown, critical)
      else EntryResult(Success, pos, h.(iv := Bytes(item.strVal)), unknown, critical)
    else if item.intLabel == COSE_HEADER_PARAM_PARTIAL_IV then
      if item.dataType != TypeByteString then EntryResult(Sign1Format, pos, h, unknown, critical)
      else EntryResult(Success, pos, h.(iv := Bytes(item.strVal)), unknown, critical)
    else if item.intLabel == COSE_HEADER_PARAM_CRIT then
      if item.dataType != TypeArray then EntryResult(Sign1Format, pos, h, unknown, critical)
      else
        var c := ParseCritical(s, pos);
        if c.status != Success then EntryResult(c.status, c.pos, h, unknown, c.lists)
        else
          // no break: the crit entry falls through to the default case
          var u := ProcessUnknown(s, c.pos, item, unknown);
          EntryResult(u.status, u.pos, h, u.unknown, c.lists)
    else
      var u := ProcessUnknown(s, pos, item, unknown);
      EntryResult(u.status, u.pos, h, u.unknown, critical)
  }

  datatype ParseResult = ParseResult(status: Status, headers: Headers, pos: nat)

  /** The loop of `parse_cose_headers` from cursor `pos`. `curNext` is the
      next nesting level of the item last fetched by the loop itself (the
      map, then each entry); the loop runs while it is above `endLevel`, the
      map's own nesting level. */
  function HeadersLoop(s: Stream, pos: nat, endLevel: nat, curNext: nat, h: Headers,
                       unknown: LabelLists, critical: LabelLists): (r: ParseResult)
    requires pos <= |s.items| && WellSized(unknown) && WellSized(critical)
    ensures pos <= r.pos <= |s.items|
    decreases |s.items| - pos
  {
    if curNext <= endLevel then ParseResult(CheckCriticalHeaders(critical, unknown), h, pos)
    else if pos == |s.items| then ParseResult(CborNotWellFormed, h, pos)
    else
      var item := s.items[pos];
      var e := EntryStep(s, pos + 1, item, h, unknown, critical);
      if e.status != Success then ParseResult(e.status, e.headers, e.pos)
      else HeadersLoop(s, e.pos, endLevel, item.nextNestLevel, e.headers, e.unknown, e.critical)
  }

  /** `parse_cose_headers` on a stream positioned at the header map. */
  function ParseHeaders(s: Stream, pos: nat): (r: ParseResult)
    requires pos <= |s.items|
    ensures pos <= r.pos <= |s.items|
  {
    var first := ItemAt(s, pos);
    var afterFirst := if pos < |s.items| then pos + 1 else pos;
    if first.dataType != TypeMap then ParseResult(CborStructure, ZeroHeaders, afterFirst)
    else HeadersLoop(s, afterFirst, first.nestingLevel, first.nextNestLevel, ZeroHeaders, ClearedLists(), ClearedLists())
  }

  datatype ProtectedResult = ProtectedResult(status: Status, algId: int)

  /** `parse_protected_headers` on the stream decoded from the protected
      bytes: the header map must use up the whole stream. Where the source
      leaves the algorithm unwritten (after an error) it is 0 here. */
  function ParseProtected(s: Stream): ProtectedResult
  {
    var r := ParseHeaders(s, 0);
    if r.status != Success then ProtectedResult(r.status, 0)
    else if r.pos != |s.items| then ProtectedResult(CborNotWellFormed, 0)
    else ProtectedResult(Success, r.headers.algId)
  }

  /** `process_unknown_header` */
  method ProcessUnknownHeader(d: Decoder, item: Item, unknown: HeaderList) returns (status: Status, nextNestLevel: nat)
    requires d.Valid() && unknown.Valid()
    modifies d, unknown.intLabels, unknown.strLabels
    ensures d.Valid()
    ensures UnknownResult(status, d.pos, unknown.Contents(), nextNestLevel)
         == ProcessUnknown(d.stream, old(d.pos), item, old(unknown.Contents()))
  {
    status := unknown.Add(item);
    if status != Success {
      nextNestLevel := 0;
      return;
    }
    var err;
    err, nextNestLevel := ConsumeItem(d, item);
    if err != QCBOR_SUCCESS {
      status := CborNotWellFormed;
    }
  }

  /** The body of the loop of `parse_cose_headers` for one fetched entry. */
  method ParseEntry(d: Decoder, item: Item, headers: Headers, unknown: HeaderList, critical: HeaderList)
    returns (status: Status, headers': Headers, nextNestLevel: nat)
    requires d.Valid() && unknown.Valid() && critical.Valid()
    requires unknown.intLabels != critical.intLabels && unknown.strLabels != critical.strLabels
    modifies d, unknown.intLabels, unknown.strLabels, critical.intLabels, critical.strLabels
    ensures d.Valid()
    ensures EntryResult(status, d.pos, headers', unknown.Contents(), critical.Contents())
         == EntryStep(d.stream, old(d.pos), item, headers, old(unknown.Contents()), old(critical.Contents()))
  {
    headers' := headers;
    status := Success;
    if item.labelType != TypeInt64 {
      // non-integer label: not handled
      status, nextNestLevel := ProcessUnknownHeader(d, item, unknown);
      return;
    }
    nextNestLevel := item.nextNestLevel;
    if item.intLabel == COSE_HEADER_PARAM_ALG {
      if item.dataType != TypeInt64 {
        return ALG_NOT_INTEGER, headers', nextNestLevel;
      }
      if item.intVal == COSE_ALGORITHM_RESERVED || item.intVal > INT32_MAX {
        return UnsupportedSigningAlg, headers', nextNestLevel;
      }
      headers' := headers'.(algId := Int32Wrap(item.intVal));
    } else if item.intLabel == COSE_HEADER_PARAM_KID {
      if item.dataType != TypeByteString {
        return Sign1Format, headers', nextNestLevel;
      }
      headers' := headers'.(kid := Bytes(item.strVal));
    } else if item.intLabel == COSE_HEADER_PARAM_IV {
      if item.dataType != TypeByteString {
        return Sign1Format, headers', nextNestLevel;
      }
      headers' := headers'.(iv := Bytes(item.strVal));
    } else if item.intLabel == COSE_HEADER_PARAM_PARTIAL_IV {
      if item.dataType != TypeByteString {
        return Sign1Format, headers', nextNestLevel;
      }
      headers' := headers'.(iv := Bytes(item.strVal));
    } else {
      if item.intLabel == COSE_HEADER_PARAM_CRIT {
        if item.dataType != TypeArray {
          return Sign1Format, headers', nextNestLevel;
        }
        status := ParseCriticalHeaders(d, critical);
        if status != Success {
          return;
        }
      }
      // default, also reached from crit
      status, nextNestLevel := ProcessUnknownHeader(d, item, unknown);
    }
  }

  /** The loop of `parse_cose_headers` over the entries of the map, run on
      the two lists of the caller. */
  method ParseEntries(d: Decoder, endOfMapLevel: nat, curNext: nat, headers: Headers,
                      unknown: HeaderList, critical: HeaderList)
    returns (status: Status, headers': Headers)
    requires d.Valid() && unknown.Valid() && critical.Valid()
    requires unknown.intLabels != critical.intLabels && unknown.strLabels != critical.strLabels
    modifies d, unknown.intLabels, unknown.strLabels, critical.intLabels, critical.strLabels
    ensures d.Valid()
    ensures ParseResult(status, headers', d.pos)
         == HeadersLoop(d.stream, old(d.pos), endOfMapLevel, curNext, headers, old(unknown.Contents()), old(critical.Contents()))
  {
    headers' := headers;
    var next: nat := curNext;
    while next > endOfMapLevel
      invariant d.Valid()
      invariant HeadersLoop(d.stream, d.pos, endOfMapLevel, next, headers', unknown.Contents(), critical.Contents())
             == HeadersLoop(d.stream, old(d.pos), endOfMapLevel, curNext, headers, old(unknown.Contents()), old(critical.Contents()))
      decreases |d.stream.items| - d.pos
    {
      var err, item := d.GetNext();
      if err != QCBOR_SUCCESS {
        return CborNotWellFormed, headers';
      }
      var nextNestLevel;
      status, headers', nextNestLevel := ParseEntry(d, item, headers', unknown, critical);
      if status != Success {
        return;
      }
      next := item.nextNestLevel;
    }
    status := CheckCriticalHeaders(critical.Contents(), unknown.Contents());
  }

  /** `parse_cose_headers` */
  method ParseCoseHeaders(d: Decoder) returns (status: Status, headers: Headers)
    requires d.Valid()
    modifies d
    ensures d.Valid()
    ensures ParseResult(status, headers, d.pos) == ParseHeaders(d.stream, old(d.pos))
  {
    headers := ZeroHeaders;
    var unknown := new HeaderList();
    var critical := new HeaderList();
    unknown.Clear();
    critical.Clear();

    // the map item; a failed fetch leaves an item of type NONE
    var err, item := d.GetNext();
    if item.dataType != TypeMap {
      return CborStructure, headers;
    }
    status, headers := ParseEntries(d, item.nestingLevel, item.nextNestLevel, headers, unknown, critical);
  }

  /** `parse_protected_headers`: a separate decode of the protected bytes. */
  method ParseProtectedHeaders(protectedHeaders: seq<byte>, tokenize: seq<byte> -> Stream)
    returns (status: Status, algId: int)
    ensures ProtectedResult(status, algId) == ParseProtected(tokenize(protectedHeaders))
  {
    var d := new Decoder(tokenize(protectedHeaders));
    var parsed;
    status, parsed := ParseCoseHeaders(d);
    algId := 0;
    if status != Success {
      return;
    }
    var finished := d.Finish();
    if !finished {
      status := CborNotWellFormed;
      return;
    }
    algId := parsed.algId;
  }
}
