/** `consume_item`: skipping the rest of an item that was already fetched.
    A map or array is skipped by nesting levels alone, which works for
    definite and indefinite lengths alike; any other item is already whole. */
module ItemSkipper {
  import opened Cbor

  predicate IsContainer(item: Item)
  {
    item.dataType == TypeMap || item.dataType == TypeArray
  }

  /** The decoder error (0 for success), the cursor afterwards and the
      nesting level reported for what follows. Where the source leaves the
      nesting level unwritten (after an error) it is 0 here. */
  datatype ConsumeResult = ConsumeResult(err: nat, pos: nat, nextNestLevel: nat)

  /** Fetch items from `pos` until one whose next nesting level is below
      `level`. */
  function SkipTo(s: Stream, pos: nat, level: nat): (r: ConsumeResult)
    requires pos <= |s.items|
    decreases |s.items| - pos
    ensures r.err == QCBOR_SUCCESS ==>
      pos < r.pos <= |s.items| &&
      (forall k :: pos <= k < r.pos - 1 ==> s.items[k].nextNestLevel >= level) &&
      s.items[r.pos - 1].nextNestLevel < level &&
      r.nextNestLevel == s.items[r.pos - 1].nextNestLevel
    ensures r.err != QCBOR_SUCCESS ==>
      r.err == s.endError && r.pos == |s.items| &&
      (forall k :: pos <= k < |s.items| ==> s.items[k].nextNestLevel >= level)
  {
    if pos == |s.items| then ConsumeResult(s.endError, pos, 0)
    else if s.items[pos].nextNestLevel >= level then SkipTo(s, pos + 1, level)
    else ConsumeResult(QCBOR_SUCCESS, pos + 1, s.items[pos].nextNestLevel)
  }

  /** What `consume_item` does to a stream positioned just after `item`. */
  function Consume(s: Stream, pos: nat, item: Item): (r: ConsumeResult)
    requires pos <= |s.items|
    ensures pos <= r.pos <= |s.items|
  {
    if IsContainer(item) then SkipTo(s, pos, item.nextNestLevel)
    else ConsumeResult(QCBOR_SUCCESS, pos, item.nextNestLevel)
  }

  /** A container is skipped up to and including the first item whose next
      nesting level drops below the container's own next nesting level, and
      the decoder's error is passed on unchanged; any other item costs no
      read and passes its own next nesting level through. */
  lemma ConsumeSkipsSubtree(s: Stream, pos: nat, item: Item)
    requires pos <= |s.items|
    ensures var r := Consume(s, pos, item);
      (!IsContainer(item) ==> r.err == QCBOR_SUCCESS && r.pos == pos && r.nextNestLevel == item.nextNestLevel) &&
      (IsContainer(item) && r.err == QCBOR_SUCCESS ==>
        pos < r.pos &&
        (forall k :: pos <= k < r.pos - 1 ==> s.items[k].nextNestLevel >= item.nextNestLevel) &&
        s.items[r.pos - 1].nextNestLevel < item.nextNestLevel &&
        r.nextNestLevel == s.items[r.pos - 1].nextNestLevel) &&
      (IsContainer(item) && r.err != QCBOR_SUCCESS ==>
        r.err == s.endError && r.pos == |s.items|)
  {
  }

  /** `consume_item` */
  method ConsumeItem(d: Decoder, item: Item) returns (err: nat, nextNestLevel: nat)
    requires d.Valid()
    modifies d
    ensures d.Valid()
    ensures ConsumeResult(err, d.pos, nextNestLevel) == Consume(d.stream, old(d.pos), item)
  {
    if IsContainer(item) {
      var got: Item;
      while true
        invariant d.Valid()
        invariant SkipTo(d.stream, d.pos, item.nextNestLevel) == Consume(d.stream, old(d.pos), item)
        decreases |d.stream.items| - d.pos
      {
        err, got := d.GetNext();
        if err != QCBOR_SUCCESS {
          nextNestLevel := 0;
          return;
        }
        if got.nextNestLevel < item.nextNestLevel {
          break;
        }
      }
      nextNestLevel := got.nextNestLevel;
      err := QCBOR_SUCCESS;
    } else {
      nextNestLevel := item.nextNestLevel;
      err := QCBOR_SUCCESS;
    }
  }
}
