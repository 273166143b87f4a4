/** What `parse_cose_headers` accepts and what it returns, stated without
    reference to its loop: a successful parse read a map whose entries were
    each accepted in turn, and the headers are those entries applied in
    order to the zeroed headers.

    Two consequences of the source as written are proved here. The crit
    entry never succeeds: after its array has been read the entry falls
    through to the unknown-header path, which files the entry by its value,
    and an array value is refused with CborStructure. So the critical list is
    still clear when the entries end, and the parse never reports
    UnknownCriticalHeader. */
module HeaderProperties {
  import opened Cbor
  import opened Cose
  import opened HeaderLists
  import opened CriticalHeaders
  import opened HeaderParser

  /** An integer label handled by one of the cases of the switch. */
  predicate KnownLabel(item: Item)
  {
    item.labelType == TypeInt64 &&
    (item.intLabel == COSE_HEADER_PARAM_ALG || item.intLabel == COSE_HEADER_PARAM_KID ||
     item.intLabel == COSE_HEADER_PARAM_IV || item.intLabel == COSE_HEADER_PARAM_PARTIAL_IV ||
     item.intLabel == COSE_HEADER_PARAM_CRIT)
  }

  /** An alg entry: integer label 1. */
  predicate IsAlgEntry(item: Item)
  {
    item.labelType == TypeInt64 && item.intLabel == COSE_HEADER_PARAM_ALG
  }

  /** The range check on an integer alg: neither the reserved 0 nor above
      INT32_MAX. */
  predicate AlgInRange(v: int)
  {
    v != COSE_ALGORITHM_RESERVED && v <= INT32_MAX
  }

  /** A kid, IV or Partial IV entry: the labels that take a byte string. */
  predicate IsBstrLabel(item: Item)
  {
    item.labelType == TypeInt64 &&
    (item.intLabel == COSE_HEADER_PARAM_KID || item.intLabel == COSE_HEADER_PARAM_IV ||
     item.intLabel == COSE_HEADER_PARAM_PARTIAL_IV)
  }

  /** A map entry the parse lets through, leaving aside the capacity of the
      unknown list: alg with an integer value that is neither 0 nor above
      INT32_MAX, kid, IV and Partial IV with a byte-string value, never crit,
      and any other entry with an integer or byte-string value. */
  predicate EntryAccepted(item: Item)
  {
    if item.labelType != TypeInt64 then IsLabelItem(item)
    else if IsAlgEntry(item) then item.dataType == TypeInt64 && AlgInRange(item.intVal)
    else if IsBstrLabel(item) then item.dataType == TypeByteString
    else if item.intLabel == COSE_HEADER_PARAM_CRIT then false
    else IsLabelItem(item)
  }

  /** The headers after an accepted entry. */
  function ApplyEntry(h: Headers, item: Item): Headers
  {
    if item.labelType != TypeInt64 then h
    else if item.intLabel == COSE_HEADER_PARAM_ALG then h.(algId := Int32Wrap(item.intVal))
    else if item.intLabel == COSE_HEADER_PARAM_KID then h.(kid := Bytes(item.strVal))
    else if item.intLabel == COSE_HEADER_PARAM_IV || item.intLabel == COSE_HEADER_PARAM_PARTIAL_IV then
      h.(iv := Bytes(item.strVal))
    else h
  }

  /** The entries `s.items[lo..hi]` applied in order to `h`. */
  function FoldHeaders(s: Stream, lo: nat, hi: nat, h: Headers): Headers
    requires lo <= hi <= |s.items|
    decreases hi
  {
    if hi == lo then h else ApplyEntry(FoldHeaders(s, lo, hi - 1, h), s.items[hi - 1])
  }

  /** What an unknown entry leaves behind in the unknown list as a scan sees
      it: its integer value unless that is 0, or its byte-string value. */
  function NewInt(item: Item): seq<int>
  {
    if item.dataType == TypeInt64 && item.intVal != HEADER_ALG_LIST_TERMINATOR then [item.intVal] else []
  }

  function NewStr(item: Item): seq<Buf>
  {
    if item.dataType == TypeByteString then [Bytes(item.strVal)] else []
  }

  /** The integer entries a scan of the unknown list sees after the entries
      `s.items[lo..hi]`. */
  function UnknownInts(s: Stream, lo: nat, hi: nat): seq<int>
    requires lo <= hi <= |s.items|
    decreases hi
  {
    if hi == lo then []
    else UnknownInts(s, lo, hi - 1) + (if KnownLabel(s.items[hi - 1]) then [] else NewInt(s.items[hi - 1]))
  }

  function UnknownStrs(s: Stream, lo: nat, hi: nat): seq<Buf>
    requires lo <= hi <= |s.items|
    decreases hi
  {
    if hi == lo then []
    else UnknownStrs(s, lo, hi - 1) + (if KnownLabel(s.items[hi - 1]) then [] else NewStr(s.items[hi - 1]))
  }

  /** There is a free slot of the kind `item` would be filed under. */
  predicate Room(l: LabelLists, item: Item)
  {
    (item.dataType == TypeInt64 ==> |IntEntries(l.ints)| < LIST_SLOTS) &&
    (item.dataType == TypeByteString ==> |StrEntries(l.strs)| < LIST_SLOTS)
  }

  /** Entry `k` is accepted and, if it is unknown, finds a free slot after
      the unknown entries from `lo` on before it. */
  predicate FitsAt(s: Stream, lo: nat, k: nat)
    requires lo <= k < |s.items|
  {
    var item := s.items[k];
    EntryAccepted(item) &&
    (!KnownLabel(item) ==>
      (item.dataType == TypeInt64 ==> |UnknownInts(s, lo, k)| < LIST_SLOTS) &&
      (item.dataType == TypeByteString ==> |UnknownStrs(s, lo, k)| < LIST_SLOTS))
  }

  /** Every entry in `s.items[lo..hi]` is accepted and fits. */
  predicate EntriesFit(s: Stream, lo: nat, hi: nat)
    requires lo <= hi <= |s.items|
  {
    forall k :: lo <= k < hi ==> FitsAt(s, lo, k)
  }

  /** The next nesting level the loop tests before reading entry `k`: the
      map's own for the first entry, else that of the entry before. */
  function LevelBefore(s: Stream, lo: nat, first: nat, k: nat): nat
    requires lo <= k <= |s.items|
  {
    if k == lo then first else s.items[k - 1].nextNestLevel
  }

  /** The map's entries are `s.items[lo..hi]`: the loop test passes before
      each of them and fails after the last. */
  predicate MapEntries(s: Stream, lo: nat, hi: nat, endLevel: nat, first: nat)
  {
    lo <= hi <= |s.items| &&
    (forall k :: lo <= k < hi ==> LevelBefore(s, lo, first, k) > endLevel) &&
    LevelBefore(s, lo, first, hi) <= endLevel
  }

  /** The loop test passes before every entry from `lo` up to and
      including `hi`: the map has not ended by entry `hi`. */
  predicate InsideMap(s: Stream, lo: nat, first: nat, endLevel: nat, hi: nat)
    requires lo <= hi <= |s.items|
  {
    forall k :: lo <= k <= hi ==> LevelBefore(s, lo, first, k) > endLevel
  }

  /** `process_unknown_header`: an entry whose value is neither an integer
      nor a byte string (a map or an array among them) is refused with
      CborStructure before anything is read; otherwise it is filed if a
      slot of its kind is free (else TooManyHeaders), and since it is then
      no container nothing more is read and its own next nesting level is
      passed on. The decoder's not-well-formed error cannot arise. */
  lemma ProcessUnknownOutcome(s: Stream, pos: nat, item: Item, unknown: LabelLists)
    requires pos <= |s.items| && WellSized(unknown) && Packed(unknown)
    ensures var u := ProcessUnknown(s, pos, item, unknown);
      (!IsLabelItem(item) ==> u == UnknownResult(CborStructure, pos, unknown, 0)) &&
      (u.status == Success <==> IsLabelItem(item) && Room(unknown, item)) &&
      (u.status == Success || u.status == CborStructure || u.status == TooManyHeaders) &&
      (u.status == Success ==>
        u.pos == pos && u.nextNestLevel == item.nextNestLevel && WellSized(u.unknown) && Packed(u.unknown) &&
        IntEntries(u.unknown.ints) == IntEntries(unknown.ints) + NewInt(item) &&
        StrEntries(u.unknown.strs) == StrEntries(unknown.strs) + NewStr(item))
  {
    if item.dataType == TypeInt64 {
      AddIntAppends(unknown, item);
    } else if item.dataType == TypeByteString {
      AddStrAppends(unknown, item);
    }
  }

  /** One map entry: it succeeds exactly when it is accepted and, if it is
      unknown, finds a free slot; it then reads nothing beyond itself,
      applies itself to the headers, leaves the critical list alone and
      appends to the unknown list. No entry reports UnknownCriticalHeader. */
  lemma EntryOutcome(s: Stream, pos: nat, item: Item, h: Headers, unknown: LabelLists, critical: LabelLists)
    requires pos <= |s.items| && WellSized(unknown) && Packed(unknown) && WellSized(critical)
    ensures var e := EntryStep(s, pos, item, h, unknown, critical);
      e.status != UnknownCriticalHeader &&
      (e.status == Success <==> EntryAccepted(item) && (!KnownLabel(item) ==> Room(unknown, item))) &&
      (e.status == Success ==>
        e.pos == pos && e.headers == ApplyEntry(h, item) && e.critical == critical && Packed(e.unknown) &&
        IntEntries(e.unknown.ints) == IntEntries(unknown.ints) + (if KnownLabel(item) then [] else NewInt(item)) &&
        StrEntries(e.unknown.strs) == StrEntries(unknown.strs) + (if KnownLabel(item) then [] else NewStr(item)))
  {
    if !KnownLabel(item) {
      ProcessUnknownOutcome(s, pos, item, unknown);
    } else if item.intLabel == COSE_HEADER_PARAM_CRIT && item.dataType == TypeArray {
      var c := ParseCritical(s, pos);
      if c.status == Success {
        ProcessUnknownOutcome(s, c.pos, item, unknown);
      }
    }
  }

  /** The status a refused entry returns: a non-integer alg gives 99, an
      alg of 0 or above INT32_MAX UNSUPPORTED_SIGNING_ALG, a kid, IV or
      Partial IV that is not a byte string SIGN1_FORMAT, and so does a crit
      that is not an array; a crit array gives the failure of its own parse
      or, when that succeeds, CBOR_STRUCTURE from the fall-through; an
      unknown entry gives CBOR_STRUCTURE for a value of the wrong type and
      TOO_MANY_HEADERS when its kind has no free slot. */
  lemma EntryRejections(s: Stream, pos: nat, item: Item, h: Headers, unknown: LabelLists, critical: LabelLists)
    requires pos <= |s.items| && WellSized(unknown) && Packed(unknown) && WellSized(critical)
    ensures var e := EntryStep(s, pos, item, h, unknown, critical);
      (IsAlgEntry(item) && item.dataType != TypeInt64 ==> e.status == ALG_NOT_INTEGER) &&
      (IsAlgEntry(item) && item.dataType == TypeInt64 && !AlgInRange(item.intVal) ==> e.status == UnsupportedSigningAlg) &&
      (IsBstrLabel(item) && item.dataType != TypeByteString ==> e.status == Sign1Format) &&
      (item.labelType == TypeInt64 && item.intLabel == COSE_HEADER_PARAM_CRIT && item.dataType != TypeArray ==>
        e.status == Sign1Format) &&
      (item.labelType == TypeInt64 && item.intLabel == COSE_HEADER_PARAM_CRIT && item.dataType == TypeArray ==>
        var c := ParseCritical(s, pos);
        e.status == (if c.status != Success then c.status else CborStructure)) &&
      (!KnownLabel(item) && !IsLabelItem(item) ==> e.status == CborStructure) &&
      (!KnownLabel(item) && IsLabelItem(item) && !Room(unknown, item) ==> e.status == TooManyHeaders)
  {
    if !KnownLabel(item) {
      ProcessUnknownOutcome(s, pos, item, unknown);
    }
  }

  /** The status that refuses an entry which does not fit, for the entry
      `item` with the stream positioned after it: the code of its label's
      case for a known label, CBOR_STRUCTURE for an unknown entry whose value
      is neither an integer nor a byte string, and TOO_MANY_HEADERS for an
      unknown entry that finds no free slot. */
  function RefusalStatus(s: Stream, pos: nat, item: Item): Status
    requires pos <= |s.items|
  {
    if IsAlgEntry(item) then (if item.dataType != TypeInt64 then ALG_NOT_INTEGER else UnsupportedSigningAlg)
    else if IsBstrLabel(item) then Sign1Format
    else if item.labelType == TypeInt64 && item.intLabel == COSE_HEADER_PARAM_CRIT then
      if item.dataType != TypeArray then Sign1Format
      else
        var c := ParseCritical(s, pos);
        if c.status != Success then c.status else CborStructure
    else if !IsLabelItem(item) then CborStructure
    else TooManyHeaders
  }

  /** An entry that is refused, or finds no room, fails with its refusal
      status. */
  lemma EntryRefused(s: Stream, pos: nat, item: Item, h: Headers, unknown: LabelLists, critical: LabelLists)
    requires pos <= |s.items| && WellSized(unknown) && Packed(unknown) && WellSized(critical)
    requires !(EntryAccepted(item) && (!KnownLabel(item) ==> Room(unknown, item)))
    ensures EntryStep(s, pos, item, h, unknown, critical).status == RefusalStatus(s, pos, item)
  {
    EntryRejections(s, pos, item, h, unknown, critical);
  }

  /** The state of the loop after the entries `s.items[lo..pos]`, for a map
      whose next nesting level is `first`, starting from headers `h0`. */
  predicate LoopInv(s: Stream, lo: nat, first: nat, h0: Headers, endLevel: nat,
                    pos: nat, curNext: nat, h: Headers, unknown: LabelLists, critical: LabelLists)
  {
    lo <= pos <= |s.items| && WellSized(unknown) && Packed(unknown) && critical == ClearedLists() &&
    IntEntries(unknown.ints) == UnknownInts(s, lo, pos) && StrEntries(unknown.strs) == UnknownStrs(s, lo, pos) &&
    h == FoldHeaders(s, lo, pos, h0) && curNext == LevelBefore(s, lo, first, pos) &&
    EntriesFit(s, lo, pos) &&
    (forall k :: lo <= k < pos ==> LevelBefore(s, lo, first, k) > endLevel)
  }

  /** A successful entry keeps the loop state in step with the entries
      read. */
  lemma LoopInvStep(s: Stream, lo: nat, first: nat, h0: Headers, endLevel: nat,
                    pos: nat, curNext: nat, h: Headers, unknown: LabelLists, critical: LabelLists)
    requires LoopInv(s, lo, first, h0, endLevel, pos, curNext, h, unknown, critical)
    requires pos < |s.items| && curNext > endLevel
    ensures var item := s.items[pos];
      var e := EntryStep(s, pos + 1, item, h, unknown, critical);
      (e.status == Success <==> FitsAt(s, lo, pos)) &&
      (e.status == Success ==>
        e.pos == pos + 1 &&
        LoopInv(s, lo, first, h0, endLevel, pos + 1, item.nextNestLevel, e.headers, e.unknown, e.critical))
  {
    var item := s.items[pos];
    EntryOutcome(s, pos + 1, item, h, unknown, critical);
    var e := EntryStep(s, pos + 1, item, h, unknown, critical);
    if e.status == Success {
      LoopInvAdvance(s, lo, first, h0, endLevel, pos, curNext, h, unknown, critical, e.headers, e.unknown, e.critical);
    }
  }

  /** An entry that fits, applied to the headers and appended to the
      unknown list, moves the loop state on by one entry. */
  lemma LoopInvAdvance(s: Stream, lo: nat, first: nat, h0: Headers, endLevel: nat,
                       pos: nat, curNext: nat, h: Headers, unknown: LabelLists, critical: LabelLists,
                       h': Headers, unknown': LabelLists, critical': LabelLists)
    requires LoopInv(s, lo, first, h0, endLevel, pos, curNext, h, unknown, critical)
    requires pos < |s.items| && curNext > endLevel && FitsAt(s, lo, pos)
    requires WellSized(unknown') && Packed(unknown') && critical' == critical
    requires h' == ApplyEntry(h, s.items[pos])
    requires IntEntries(unknown'.ints) ==
      IntEntries(unknown.ints) + (if KnownLabel(s.items[pos]) then [] else NewInt(s.items[pos]))
    requires StrEntries(unknown'.strs) ==
      StrEntries(unknown.strs) + (if KnownLabel(s.items[pos]) then [] else NewStr(s.items[pos]))
    ensures LoopInv(s, lo, first, h0, endLevel, pos + 1, s.items[pos].nextNestLevel, h', unknown', critical')
  {
    assert forall k :: lo <= k < pos + 1 ==> FitsAt(s, lo, k);
    assert LevelBefore(s, lo, first, pos) == curNext;
    assert forall k :: lo <= k < pos + 1 ==> LevelBefore(s, lo, first, k) > endLevel;
  }

  /** A loop that ends in success has read exactly the map's entries, every
      one accepted and fitting, and returns them applied in order. */
  lemma {:induction false} LoopSuccess(s: Stream, lo: nat, first: nat, h0: Headers, endLevel: nat,
                                       pos: nat, curNext: nat, h: Headers, unknown: LabelLists, critical: LabelLists)
    requires LoopInv(s, lo, first, h0, endLevel, pos, curNext, h, unknown, critical)
    ensures var r := HeadersLoop(s, pos, endLevel, curNext, h, unknown, critical);
      r.status == Success ==>
        MapEntries(s, lo, r.pos, endLevel, first) && EntriesFit(s, lo, r.pos) &&
        r.headers == FoldHeaders(s, lo, r.pos, h0)
    decreases |s.items| - pos
  {
    if curNext > endLevel && pos < |s.items| {
      var item := s.items[pos];
      LoopInvStep(s, lo, first, h0, endLevel, pos, curNext, h, unknown, critical);
      var e := EntryStep(s, pos + 1, item, h, unknown, critical);
      if e.status == Success {
        LoopSuccess(s, lo, first, h0, endLevel, e.pos, item.nextNestLevel, e.headers, e.unknown, e.critical);
      }
    }
  }

  /** Conversely, when the map's entries are `s.items[lo..q]`, all accepted
      and fitting, the loop succeeds there with those entries applied. */
  lemma {:induction false} LoopComplete(s: Stream, lo: nat, first: nat, h0: Headers, endLevel: nat,
                                        pos: nat, curNext: nat, h: Headers, unknown: LabelLists, critical: LabelLists, q: nat)
    requires LoopInv(s, lo, first, h0, endLevel, pos, curNext, h, unknown, critical)
    requires pos <= q && MapEntries(s, lo, q, endLevel, first) && EntriesFit(s, lo, q)
    ensures HeadersLoop(s, pos, endLevel, curNext, h, unknown, critical) == ParseResult(Success, FoldHeaders(s, lo, q, h0), q)
    decreases q - pos
  {
    if pos == q {
      ClearedCriticalPasses(unknown);
    } else {
      var item := s.items[pos];
      assert LevelBefore(s, lo, first, pos) > endLevel && FitsAt(s, lo, pos);
      LoopInvStep(s, lo, first, h0, endLevel, pos, curNext, h, unknown, critical);
      var e := EntryStep(s, pos + 1, item, h, unknown, critical);
      LoopComplete(s, lo, first, h0, endLevel, e.pos, item.nextNestLevel, e.headers, e.unknown, e.critical, q);
    }
  }

  /** Whatever happens, the loop does not report UnknownCriticalHeader: the
      critical list it finally checks is still clear. */
  lemma {:induction false} LoopNeverUnknownCritical(s: Stream, pos: nat, endLevel: nat, curNext: nat, h: Headers,
                                                    unknown: LabelLists, critical: LabelLists)
    requires pos <= |s.items| && WellSized(unknown) && Packed(unknown) && critical == ClearedLists()
    ensures HeadersLoop(s, pos, endLevel, curNext, h, unknown, critical).status != UnknownCriticalHeader
    decreases |s.items| - pos
  {
    if curNext <= endLevel {
      ClearedCriticalPasses(unknown);
    } else if pos < |s.items| {
      var item := s.items[pos];
      EntryOutcome(s, pos + 1, item, h, unknown, critical);
      var e := EntryStep(s, pos + 1, item, h, unknown, critical);
      if e.status == Success {
        LoopNeverUnknownCritical(s, e.pos, endLevel, item.nextNestLevel, e.headers, e.unknown, e.critical);
      }
    }
  }

  /** A cleared list is packed and a scan sees nothing in it. */
  lemma ClearedIsEmpty()
    ensures Packed(ClearedLists())
    ensures IntEntries(ClearedLists().ints) == [] && StrEntries(ClearedLists().strs) == []
  {
    FirstZeroAt(ClearedLists().ints, 0);
    FirstNullAt(ClearedLists().strs, 0);
  }

  /** The loop starts in step: no entries read, both lists clear. */
  lemma LoopInvInit(s: Stream, lo: nat, first: nat, h0: Headers, endLevel: nat)
    requires lo <= |s.items|
    ensures LoopInv(s, lo, first, h0, endLevel, lo, first, h0, ClearedLists(), ClearedLists())
  {
    ClearedIsEmpty();
  }

  /** `parse_cose_headers` never reports UnknownCriticalHeader. */
  lemma ParseHeadersNeverUnknownCritical(s: Stream, pos: nat)
    requires pos <= |s.items|
    ensures ParseHeaders(s, pos).status != UnknownCriticalHeader
  {
    var first := ItemAt(s, pos);
    if first.dataType == TypeMap {
      ClearedIsEmpty();
      LoopNeverUnknownCritical(s, pos + 1, first.nestingLevel, first.nextNestLevel, ZeroHeaders, ClearedLists(), ClearedLists());
    }
  }

  /** `parse_cose_headers` succeeds only on a map whose entries are each
      accepted and fit, and returns them applied in order to the zeroed
      headers. */
  lemma ParseHeadersSuccess(s: Stream, pos: nat)
    requires pos <= |s.items|
    ensures var r := ParseHeaders(s, pos);
      r.status == Success ==>
        pos < |s.items| && s.items[pos].dataType == TypeMap &&
        MapEntries(s, pos + 1, r.pos, s.items[pos].nestingLevel, s.items[pos].nextNestLevel) &&
        EntriesFit(s, pos + 1, r.pos) &&
        r.headers == FoldHeaders(s, pos + 1, r.pos, ZeroHeaders)
  {
    var first := ItemAt(s, pos);
    if first.dataType == TypeMap {
      LoopInvInit(s, pos + 1, first.nextNestLevel, ZeroHeaders, first.nestingLevel);
      LoopSuccess(s, pos + 1, first.nextNestLevel, ZeroHeaders, first.nestingLevel,
                  pos + 1, first.nextNestLevel, ZeroHeaders, ClearedLists(), ClearedLists());
    }
  }

  /** Conversely, a map whose entries `s.items[pos + 1..q]` are each accepted
      and fit is parsed successfully up to `q`. */
  lemma ParseHeadersComplete(s: Stream, pos: nat, q: nat)
    requires pos < |s.items| && s.items[pos].dataType == TypeMap
    requires MapEntries(s, pos + 1, q, s.items[pos].nestingLevel, s.items[pos].nextNestLevel)
    requires EntriesFit(s, pos + 1, q)
    ensures ParseHeaders(s, pos) == ParseResult(Success, FoldHeaders(s, pos + 1, q, ZeroHeaders), q)
  {
    var first := s.items[pos];
    LoopInvInit(s, pos + 1, first.nextNestLevel, ZeroHeaders, first.nestingLevel);
    LoopComplete(s, pos + 1, first.nextNestLevel, ZeroHeaders, first.nestingLevel,
                 pos + 1, first.nextNestLevel, ZeroHeaders, ClearedLists(), ClearedLists(), q);
  }

  /** The Partial IV and the content type are never written: both stay as
      they were before the entries. */
  lemma {:induction false} FoldKeepsPartialIv(s: Stream, lo: nat, hi: nat, h: Headers)
    requires lo <= hi <= |s.items|
    ensures FoldHeaders(s, lo, hi, h).partialIv == h.partialIv
    ensures FoldHeaders(s, lo, hi, h).contentType == h.contentType
    decreases hi
  {
    if hi > lo {
      FoldKeepsPartialIv(s, lo, hi - 1, h);
    }
  }

  /** An accepted alg entry below INT32_MIN is truncated by the cast to 32
      bits: every negative multiple of 2^32 within int64, -2^32 among them,
      passes the range check and leaves the reserved value 0. */
  lemma AlgCastWraps(h: Headers, item: Item)
    requires item.labelType == TypeInt64 && item.intLabel == COSE_HEADER_PARAM_ALG
    requires item.dataType == TypeInt64 && item.intVal != 0 && item.intVal <= INT32_MAX
    requires item.intVal % 0x1_0000_0000 == 0
    ensures EntryAccepted(item)
    ensures ApplyEntry(h, item).algId == COSE_ALGORITHM_RESERVED
  {
    var r := Int32Wrap(item.intVal);
    assert r % 0x1_0000_0000 == 0;
  }

  /** Without an alg entry the algorithm is left as it was. */
  lemma {:induction false} FoldKeepsAlg(s: Stream, lo: nat, hi: nat, h: Headers)
    requires lo <= hi <= |s.items|
    requires forall k :: lo <= k < hi ==> !IsAlgEntry(s.items[k])
    ensures FoldHeaders(s, lo, hi, h).algId == h.algId
    decreases hi
  {
    if hi > lo {
      FoldKeepsAlg(s, lo, hi - 1, h);
    }
  }

  /** A successful parse of a map without an alg entry leaves the reserved
      algorithm 0 of the zeroed headers: a missing algorithm is no error. */
  lemma ParseHeadersWithoutAlg(s: Stream, pos: nat)
    requires pos <= |s.items| && ParseHeaders(s, pos).status == Success
    requires forall k :: pos < k < ParseHeaders(s, pos).pos ==> !IsAlgEntry(s.items[k])
    ensures ParseHeaders(s, pos).headers.algId == COSE_ALGORITHM_RESERVED
  {
    ParseHeadersSuccess(s, pos);
    FoldKeepsAlg(s, pos + 1, ParseHeaders(s, pos).pos, ZeroHeaders);
  }

  /** A header bucket that is not a map is refused with CBOR_STRUCTURE and
      zeroed headers. */
  lemma ParseHeadersRejectsNonMap(s: Stream, pos: nat)
    requires pos <= |s.items| && ItemAt(s, pos).dataType != TypeMap
    ensures ParseHeaders(s, pos).status == CborStructure && ParseHeaders(s, pos).headers == ZeroHeaders
  {
  }

  /** `parse_protected_headers` succeeds only when the protected bytes decode
      to exactly one map, whose entries are accepted and fit; the algorithm
      is then the one the entries leave. */
  lemma ParseProtectedSuccess(s: Stream)
    ensures var p := ParseProtected(s);
      p.status != UnknownCriticalHeader &&
      (p.status == Success ==>
        0 < |s.items| && s.items[0].dataType == TypeMap &&
        MapEntries(s, 1, |s.items|, s.items[0].nestingLevel, s.items[0].nextNestLevel) &&
        EntriesFit(s, 1, |s.items|) &&
        p.algId == FoldHeaders(s, 1, |s.items|, ZeroHeaders).algId)
  {
    var r := ParseHeaders(s, 0);
    ParseHeadersNeverUnknownCritical(s, 0);
    ParseHeadersSuccess(s, 0);
    assert ParseProtected(s).status == Success ==> r.status == Success && r.pos == |s.items|;
  }

  /** Conversely, protected bytes that decode to exactly one map whose
      entries are accepted and fit are parsed successfully, with the
      algorithm those entries leave. */
  lemma ParseProtectedComplete(s: Stream)
    requires 0 < |s.items| && s.items[0].dataType == TypeMap
    requires MapEntries(s, 1, |s.items|, s.items[0].nestingLevel, s.items[0].nextNestLevel)
    requires EntriesFit(s, 1, |s.items|)
    ensures ParseProtected(s) == ProtectedResult(Success, FoldHeaders(s, 1, |s.items|, ZeroHeaders).algId)
  {
    ParseHeadersComplete(s, 0, |s.items|);
  }

  /** A well-formed header map followed by further items is refused with
      CBOR_NOT_WELL_FORMED: the decoder is not finished after the map. */
  lemma ParseProtectedLeftover(s: Stream, q: nat)
    requires 0 < |s.items| && s.items[0].dataType == TypeMap
    requires MapEntries(s, 1, q, s.items[0].nestingLevel, s.items[0].nextNestLevel)
    requires EntriesFit(s, 1, q) && q < |s.items|
    ensures ParseProtected(s) == ProtectedResult(CborNotWellFormed, 0)
  {
    ParseHeadersComplete(s, 0, q);
  }

  /** A failure of the header map is passed on unchanged. */
  lemma ParseProtectedPassesError(s: Stream)
    requires ParseHeaders(s, 0).status != Success
    ensures ParseProtected(s).status == ParseHeaders(s, 0).status
  {
  }

  /** The first entry that does not fit decides the loop: when the map's
      entries from `lo` on fit up to entry `q`, and entry `q` is still
      inside the map but does not fit, the loop fails with the refusal
      status of entry `q`. */
  lemma {:induction false} LoopRefuses(s: Stream, lo: nat, first: nat, h0: Headers, endLevel: nat,
                                       pos: nat, curNext: nat, h: Headers, unknown: LabelLists, critical: LabelLists, q: nat)
    requires LoopInv(s, lo, first, h0, endLevel, pos, curNext, h, unknown, critical)
    requires pos <= q < |s.items|
    requires InsideMap(s, lo, first, endLevel, q)
    requires EntriesFit(s, lo, q) && !FitsAt(s, lo, q)
    ensures HeadersLoop(s, pos, endLevel, curNext, h, unknown, critical).status == RefusalStatus(s, q + 1, s.items[q])
    decreases q - pos
  {
    var item := s.items[pos];
    assert LevelBefore(s, lo, first, pos) > endLevel;
    if pos == q {
      LoopRefusesHere(s, lo, first, h0, endLevel, pos, curNext, h, unknown, critical);
    } else {
      LoopInvStep(s, lo, first, h0, endLevel, pos, curNext, h, unknown, critical);
      assert FitsAt(s, lo, pos);
      var e := EntryStep(s, pos + 1, item, h, unknown, critical);
      LoopRefuses(s, lo, first, h0, endLevel, e.pos, item.nextNestLevel, e.headers, e.unknown, e.critical, q);
    }
  }

  /** An entry that is inside the map and does not fit ends the loop with
      its refusal status. */
  lemma LoopRefusesHere(s: Stream, lo: nat, first: nat, h0: Headers, endLevel: nat,
                        pos: nat, curNext: nat, h: Headers, unknown: LabelLists, critical: LabelLists)
    requires LoopInv(s, lo, first, h0, endLevel, pos, curNext, h, unknown, critical)
    requires pos < |s.items| && curNext > endLevel && !FitsAt(s, lo, pos)
    ensures HeadersLoop(s, pos, endLevel, curNext, h, unknown, critical).status == RefusalStatus(s, pos + 1, s.items[pos])
  {
    var item := s.items[pos];
    assert !(EntryAccepted(item) && (!KnownLabel(item) ==> Room(unknown, item)));
    EntryRefused(s, pos + 1, item, h, unknown, critical);
    EntryOutcome(s, pos + 1, item, h, unknown, critical);
  }

  /** A stream that ends while the loop test still passes, every entry
      having fit, leaves the loop's fetch without an item:
      CBOR_NOT_WELL_FORMED. */
  lemma {:induction false} LoopRunsOut(s: Stream, lo: nat, first: nat, h0: Headers, endLevel: nat,
                                       pos: nat, curNext: nat, h: Headers, unknown: LabelLists, critical: LabelLists)
    requires LoopInv(s, lo, first, h0, endLevel, pos, curNext, h, unknown, critical)
    requires InsideMap(s, lo, first, endLevel, |s.items|)
    requires EntriesFit(s, lo, |s.items|)
    ensures HeadersLoop(s, pos, endLevel, curNext, h, unknown, critical).status == CborNotWellFormed
    decreases |s.items| - pos
  {
    assert LevelBefore(s, lo, first, pos) > endLevel;
    if pos < |s.items| {
      var item := s.items[pos];
      assert FitsAt(s, lo, pos);
      LoopInvStep(s, lo, first, h0, endLevel, pos, curNext, h, unknown, critical);
      var e := EntryStep(s, pos + 1, item, h, unknown, critical);
      LoopRunsOut(s, lo, first, h0, endLevel, e.pos, item.nextNestLevel, e.headers, e.unknown, e.critical);
    }
  }

  /** `parse_cose_headers` fails with the refusal status of the first entry
      of the map that does not fit: UNSUPPORTED_SIGNING_ALG for an alg of 0
      or above INT32_MAX, SIGN1_FORMAT for a kid that is not a byte string,
      and so on. */
  lemma ParseHeadersRefuses(s: Stream, pos: nat, q: nat)
    requires pos < q < |s.items| && s.items[pos].dataType == TypeMap
    requires InsideMap(s, pos + 1, s.items[pos].nextNestLevel, s.items[pos].nestingLevel, q)
    requires EntriesFit(s, pos + 1, q) && !FitsAt(s, pos + 1, q)
    ensures ParseHeaders(s, pos).status == RefusalStatus(s, q + 1, s.items[q])
  {
    var first := s.items[pos];
    LoopInvInit(s, pos + 1, first.nextNestLevel, ZeroHeaders, first.nestingLevel);
    LoopRefuses(s, pos + 1, first.nextNestLevel, ZeroHeaders, first.nestingLevel,
                pos + 1, first.nextNestLevel, ZeroHeaders, ClearedLists(), ClearedLists(), q);
  }

  /** `parse_cose_headers` on a map that the stream ends inside of, every
      entry up to there fitting, fails with CBOR_NOT_WELL_FORMED. */
  lemma ParseHeadersRunsOut(s: Stream, pos: nat)
    requires pos < |s.items| && s.items[pos].dataType == TypeMap
    requires InsideMap(s, pos + 1, s.items[pos].nextNestLevel, s.items[pos].nestingLevel, |s.items|)
    requires EntriesFit(s, pos + 1, |s.items|)
    ensures ParseHeaders(s, pos).status == CborNotWellFormed
  {
    var first := s.items[pos];
    LoopInvInit(s, pos + 1, first.nextNestLevel, ZeroHeaders, first.nestingLevel);
    LoopRunsOut(s, pos + 1, first.nextNestLevel, ZeroHeaders, first.nestingLevel,
                pos + 1, first.nextNestLevel, ZeroHeaders, ClearedLists(), ClearedLists());
  }
}
