/** The CBOR decoder as the COSE_Sign1 verifier sees it: an abstract stream of
    decoded items, each reporting its own nesting level and the nesting level
    of the item that follows it, read one at a time through a cursor.
    Byte tokenising, tags and indefinite lengths are the decoder's business
    and are not modelled; a stream is what the decoder would hand out. */
module Cbor {

  type byte = x: int | 0 <= x < 256

  type int64 = x: int | -0x8000_0000_0000_0000 <= x < 0x8000_0000_0000_0000

  /** A non-owning byte view (`struct q_useful_buf_c`): either the NULL view
      or a run of bytes, possibly empty. */
  datatype Buf = NullBuf | Bytes(data: seq<byte>)

  /** The bytes a view holds; the NULL view has length 0. */
  function BufBytes(b: Buf): seq<byte>
  {
    match b
    case NullBuf => []
    case Bytes(d) => d
  }

  /** The decoder's item types (`QCBOR_TYPE_*`) that the verifier tells apart. */
  datatype DataType =
    | TypeNone
    | TypeInt64
    | TypeUInt64
    | TypeByteString
    | TypeTextString
    | TypeArray
    | TypeMap
    | TypeOther

  /** One decoded item (`QCBORItem`). `dataType` and the `intVal`/`strVal`/`count`
      fields describe the item's value; `labelType` and `intLabel`/`strLabel`
      its label when it is a map entry. `taggedSign1` says whether the item
      carries the COSE_Sign1 tag. */
  datatype Item = Item(
    dataType: DataType,
    labelType: DataType,
    intLabel: int64,
    strLabel: seq<byte>,
    intVal: int64,
    strVal: seq<byte>,
    count: nat,
    taggedSign1: bool,
    nestingLevel: nat,
    nextNestLevel: nat)

  /** What a failed fetch leaves in the item: a type no caller accepts. */
  const NoneItem := Item(TypeNone, TypeNone, 0, [], 0, [], 0, false, 0, 0)

  /** QCBOR error codes; 0 is QCBOR_SUCCESS. */
  const QCBOR_SUCCESS: nat := 0
  type QcborError = e: nat | e != QCBOR_SUCCESS witness 1

  /** Everything the decoder yields for one buffer: the items it can decode in
      order, then the error it reports once no further item can be decoded
      (end of input or malformed bytes). */
  datatype Stream = Stream(items: seq<Item>, endError: QcborError)

  /** The item at a position, or the failed-fetch item past the end. */
  function ItemAt(s: Stream, k: nat): (it: Item)
    ensures k >= |s.items| ==> it.dataType == TypeNone
  {
    if k < |s.items| then s.items[k] else NoneItem
  }

  /** A decode context (`QCBORDecodeContext`) over one stream. */
  class Decoder {
    const stream: Stream
    var pos: nat

    ghost predicate Valid()
      reads this
    {
      pos <= |stream.items|
    }

    /** `QCBORDecode_Init` */
    constructor (s: Stream)
      ensures Valid() && stream == s && pos == 0
    {
      stream := s;
      pos := 0;
    }

    /** `QCBORDecode_GetNext`: hands out the next item and advances, or
        reports the stream's error, leaves the cursor alone and yields an
        item of type NONE. */
    method GetNext() returns (err: nat, item: Item)
      requires Valid()
      modifies this
      ensures Valid()
      ensures old(pos) < |stream.items| ==>
        err == QCBOR_SUCCESS && item == stream.items[old(pos)] && pos == old(pos) + 1
      ensures old(pos) == |stream.items| ==>
        err == stream.endError && item == NoneItem && pos == old(pos)
    {
      if pos < |stream.items| {
        err, item := QCBOR_SUCCESS, stream.items[pos];
        pos := pos + 1;
      } else {
        err, item := stream.endError, NoneItem;
      }
    }

    /** `QCBORDecode_Finish`: succeeds exactly when every item was consumed. */
    method Finish() returns (ok: bool)
      requires Valid()
      ensures ok <==> pos == |stream.items|
    {
      ok := pos == |stream.items|;
    }
  }
}
