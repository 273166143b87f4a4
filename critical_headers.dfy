/** `parse_critical_headers`: reading the array of the crit header
    parameter into a cleared critical-header list. */
module CriticalHeaders {
  import opened Cbor
  import opened Cose
  import opened HeaderLists

  datatype CritResult = CritResult(status: Status, pos: nat, lists: LabelLists)

  /** The loop of `parse_critical_headers` from cursor `pos`, with the nesting
      level recorded so far (0 until an item with a non-zero level is seen),
      the counts of integer and byte-string elements stored and the list
      contents. The loop leaves only after it has fetched and stored an item
      whose nesting level differs from the recorded one. */
  function CritLoop(s: Stream, pos: nat, nestLevel: nat, numInts: nat, numStrs: nat, l: LabelLists): (r: CritResult)
    requires pos <= |s.items| && WellSized(l) && numInts <= LIST_SLOTS && numStrs <= LIST_SLOTS
    ensures pos <= r.pos <= |s.items| && WellSized(r.lists)
    ensures r.status == CborNotWellFormed ==> r.pos == |s.items|
    ensures r.status == Success || r.status == CborStructure || r.status == TooManyHeaders || r.status == CborNotWellFormed
    decreases |s.items| - pos
  {
    if pos == |s.items| then CritResult(CborNotWellFormed, pos, l)
    else
      var item := s.items[pos];
      var level := if nestLevel == 0 then item.nestingLevel else nestLevel;
      if item.dataType == TypeInt64 then
        if numInts == LIST_SLOTS then CritResult(TooManyHeaders, pos + 1, l)
        else
          var l' := l.(ints := l.ints[numInts := item.intVal]);
          if level != item.nestingLevel then CritResult(Success, pos + 1, l')
          else CritLoop(s, pos + 1, level, numInts + 1, numStrs, l')
      else if item.dataType == TypeByteString then
        if numStrs == LIST_SLOTS then CritResult(TooManyHeaders, pos + 1, l)
        else
          var l' := l.(strs := l.strs[numStrs := Bytes(item.strVal)]);
          if level != item.nestingLevel then CritResult(Success, pos + 1, l')
          else CritLoop(s, pos + 1, level, numInts, numStrs + 1, l')
      else CritResult(CborStructure, pos + 1, l)
  }

  /** `parse_critical_headers` on a stream positioned at the first element of
      the crit array. */
  function ParseCritical(s: Stream, pos: nat): CritResult
    requires pos <= |s.items|
  {
    CritLoop(s, pos, 0, 0, 0, ClearedLists())
  }

  /** The integer values of the integer items in `s.items[lo..hi]`, in
      order. */
  function IntValues(s: Stream, lo: nat, hi: nat): (vals: seq<int>)
    requires lo <= hi <= |s.items|
    decreases hi
  {
    if hi == lo then []
    else IntValues(s, lo, hi - 1) + (if s.items[hi - 1].dataType == TypeInt64 then [s.items[hi - 1].intVal] else [])
  }

  /** The byte-string values of the byte-string items in
      `s.items[lo..hi]`, in order. */
  function StrValues(s: Stream, lo: nat, hi: nat): (vals: seq<Buf>)
    requires lo <= hi <= |s.items|
    decreases hi
  {
    if hi == lo then []
    else StrValues(s, lo, hi - 1) + (if s.items[hi - 1].dataType == TypeByteString then [Bytes(s.items[hi - 1].strVal)] else [])
  }

  /** Values written from slot 0 on into a cleared list. */
  function FillInts(vals: seq<int>): seq<int>
    requires |vals| <= LIST_SLOTS
  {
    vals + seq(LIST_SLOTS - |vals|, _ => HEADER_ALG_LIST_TERMINATOR)
  }

  function FillStrs(vals: seq<Buf>): seq<Buf>
    requires |vals| <= LIST_SLOTS
  {
    vals + seq(LIST_SLOTS - |vals|, _ => NullBuf)
  }

  predicate IsLabelItem(item: Item)
  {
    item.dataType == TypeInt64 || item.dataType == TypeByteString
  }

  /** The loop's state describes the elements consumed since `start`. */
  predicate LoopState(s: Stream, start: nat, pos: nat, numInts: nat, numStrs: nat, l: LabelLists)
    requires start <= pos <= |s.items|
  {
    |IntValues(s, start, pos)| == numInts <= LIST_SLOTS &&
    |StrValues(s, start, pos)| == numStrs <= LIST_SLOTS &&
    l == LabelLists(FillInts(IntValues(s, start, pos)), FillStrs(StrValues(s, start, pos)))
  }

  /** Storing one more integer keeps the loop's state in step. */
  lemma LoopStateStepInt(s: Stream, start: nat, pos: nat, numInts: nat, numStrs: nat, l: LabelLists)
    requires start <= pos < |s.items| && s.items[pos].dataType == TypeInt64 && numInts < LIST_SLOTS
    requires LoopState(s, start, pos, numInts, numStrs, l)
    ensures LoopState(s, start, pos + 1, numInts + 1, numStrs, l.(ints := l.ints[numInts := s.items[pos].intVal]))
  {
    assert l.ints[numInts := s.items[pos].intVal] == FillInts(IntValues(s, start, pos + 1));
  }

  /** Storing one more byte string keeps the loop's state in step. */
  lemma LoopStateStepStr(s: Stream, start: nat, pos: nat, numInts: nat, numStrs: nat, l: LabelLists)
    requires start <= pos < |s.items| && s.items[pos].dataType == TypeByteString && numStrs < LIST_SLOTS
    requires LoopState(s, start, pos, numInts, numStrs, l)
    ensures LoopState(s, start, pos + 1, numInts, numStrs + 1, l.(strs := l.strs[numStrs := Bytes(s.items[pos].strVal)]))
  {
    assert l.strs[numStrs := Bytes(s.items[pos].strVal)] == FillStrs(StrValues(s, start, pos + 1));
  }

  /** A successful loop stored exactly the label elements consumed since
      `start`. */
  lemma {:induction false} CritLoopSuccess(s: Stream, start: nat, pos: nat, nestLevel: nat, numInts: nat, numStrs: nat, l: LabelLists)
    requires start <= pos <= |s.items| && WellSized(l)
    requires LoopState(s, start, pos, numInts, numStrs, l)
    ensures var r := CritLoop(s, pos, nestLevel, numInts, numStrs, l);
      r.status == Success ==> LoopState(s, start, r.pos, |IntValues(s, start, r.pos)|, |StrValues(s, start, r.pos)|, r.lists)
    decreases |s.items| - pos
  {
    if pos < |s.items| {
      var item := s.items[pos];
      var level := if nestLevel == 0 then item.nestingLevel else nestLevel;
      if item.dataType == TypeInt64 && numInts < LIST_SLOTS {
        LoopStateStepInt(s, start, pos, numInts, numStrs, l);
        if level == item.nestingLevel {
          CritLoopSuccess(s, start, pos + 1, level, numInts + 1, numStrs, l.(ints := l.ints[numInts := item.intVal]));
        }
      } else if item.dataType == TypeByteString && numStrs < LIST_SLOTS {
        LoopStateStepStr(s, start, pos, numInts, numStrs, l);
        if level == item.nestingLevel {
          CritLoopSuccess(s, start, pos + 1, level, numInts, numStrs + 1, l.(strs := l.strs[numStrs := Bytes(item.strVal)]));
        }
      }
    }
  }

  /** Unless the stream ran out, the loop consumed label elements and then
      one more item, which is a label element unless the loop failed with
      CborStructure. */
  lemma {:induction false} CritLoopLastItem(s: Stream, pos: nat, nestLevel: nat, numInts: nat, numStrs: nat, l: LabelLists)
    requires pos <= |s.items| && WellSized(l) && numInts <= LIST_SLOTS && numStrs <= LIST_SLOTS
    ensures var r := CritLoop(s, pos, nestLevel, numInts, numStrs, l);
      r.status != CborNotWellFormed ==>
        pos < r.pos &&
        (forall k :: pos <= k < r.pos - 1 ==> IsLabelItem(s.items[k])) &&
        (r.status == CborStructure <==> !IsLabelItem(s.items[r.pos - 1]))
    decreases |s.items| - pos
  {
    var r := CritLoop(s, pos, nestLevel, numInts, numStrs, l);
    if pos < |s.items| {
      var item := s.items[pos];
      var level := if nestLevel == 0 then item.nestingLevel else nestLevel;
      if !IsLabelItem(item) || (item.dataType == TypeInt64 && numInts == LIST_SLOTS)
         || (item.dataType == TypeByteString && numStrs == LIST_SLOTS) || level != item.nestingLevel {
        assert r.pos == pos + 1;
      } else if item.dataType == TypeInt64 {
        var l' := l.(ints := l.ints[numInts := item.intVal]);
        assert r == CritLoop(s, pos + 1, level, numInts + 1, numStrs, l');
        CritLoopLastItem(s, pos + 1, level, numInts + 1, numStrs, l');
      } else {
        var l' := l.(strs := l.strs[numStrs := Bytes(item.strVal)]);
        assert r == CritLoop(s, pos + 1, level, numInts, numStrs + 1, l');
        CritLoopLastItem(s, pos + 1, level, numInts, numStrs + 1, l');
      }
    }
  }

  /** The item at `f` is a label element whose kind already fills all
      HEADER_LIST_MAX + 1 slots with the elements from `start` on. */
  predicate FullAt(s: Stream, start: nat, f: nat)
    requires start <= f < |s.items|
  {
    var item := s.items[f];
    IsLabelItem(item) &&
    (item.dataType == TypeInt64 ==> |IntValues(s, start, f)| == LIST_SLOTS) &&
    (item.dataType == TypeByteString ==> |StrValues(s, start, f)| == LIST_SLOTS)
  }

  /** Unless the stream ran out, the loop fails with TooManyHeaders exactly
      when the last item it read is an element that found the
      HEADER_LIST_MAX + 1 slots of its kind taken by the elements before it. */
  lemma {:induction false} CritLoopFull(s: Stream, start: nat, pos: nat, nestLevel: nat, numInts: nat, numStrs: nat, l: LabelLists)
    requires start <= pos <= |s.items| && WellSized(l) && numInts <= LIST_SLOTS && numStrs <= LIST_SLOTS
    requires |IntValues(s, start, pos)| == numInts && |StrValues(s, start, pos)| == numStrs
    ensures var r := CritLoop(s, pos, nestLevel, numInts, numStrs, l);
      r.status != CborNotWellFormed ==>
        pos < r.pos && (r.status == TooManyHeaders <==> FullAt(s, start, r.pos - 1))
    decreases |s.items| - pos
  {
    var r := CritLoop(s, pos, nestLevel, numInts, numStrs, l);
    if pos == |s.items| {
      assert r.status == CborNotWellFormed;
    } else {
      var item := s.items[pos];
      var level := if nestLevel == 0 then item.nestingLevel else nestLevel;
      if !IsLabelItem(item) {
        assert r.status == CborStructure && r.pos == pos + 1;
      } else if item.dataType == TypeInt64 && numInts == LIST_SLOTS {
        assert r.pos == pos + 1;
        assert FullAt(s, start, pos);
      } else if item.dataType == TypeByteString && numStrs == LIST_SLOTS {
        assert r.pos == pos + 1;
        assert FullAt(s, start, pos);
      } else if level != item.nestingLevel {
        assert r.status == Success && r.pos == pos + 1;
        assert !FullAt(s, start, pos);
      } else if item.dataType == TypeInt64 {
        var l' := l.(ints := l.ints[numInts := item.intVal]);
        assert IntValues(s, start, pos + 1) == IntValues(s, start, pos) + [item.intVal];
        assert StrValues(s, start, pos + 1) == StrValues(s, start, pos);
        assert r == CritLoop(s, pos + 1, level, numInts + 1, numStrs, l');
        CritLoopFull(s, start, pos + 1, level, numInts + 1, numStrs, l');
      } else {
        var l' := l.(strs := l.strs[numStrs := Bytes(item.strVal)]);
        assert IntValues(s, start, pos + 1) == IntValues(s, start, pos);
        assert StrValues(s, start, pos + 1) == StrValues(s, start, pos) + [Bytes(item.strVal)];
        assert r == CritLoop(s, pos + 1, level, numInts, numStrs + 1, l');
        CritLoopFull(s, start, pos + 1, level, numInts, numStrs + 1, l');
      }
    }
  }

  /** What a successful parse stored: starting from a cleared list, the
      integer elements and the byte-string elements, each in arrival order,
      at most HEADER_LIST_MAX + 1 of each. Every element consumed was an
      integer or a byte string; a parse fails with CborStructure on the first
      element of another type, with TooManyHeaders exactly on an element
      that finds its kind's HEADER_LIST_MAX + 1 slots taken, and with CborNotWellFormed
      only when the stream ran out. */
  lemma ParseCriticalOutcome(s: Stream, pos: nat)
    requires pos <= |s.items|
    ensures var r := ParseCritical(s, pos);
      (r.status == Success ==>
        pos < r.pos &&
        (forall k :: pos <= k < r.pos ==> IsLabelItem(s.items[k])) &&
        |IntValues(s, pos, r.pos)| <= LIST_SLOTS && |StrValues(s, pos, r.pos)| <= LIST_SLOTS &&
        r.lists == LabelLists(FillInts(IntValues(s, pos, r.pos)), FillStrs(StrValues(s, pos, r.pos)))) &&
      (r.status == CborStructure ==>
        pos < r.pos && !IsLabelItem(s.items[r.pos - 1]) &&
        (forall k :: pos <= k < r.pos - 1 ==> IsLabelItem(s.items[k]))) &&
      (r.status != CborNotWellFormed ==>
        pos < r.pos &&
        var last := s.items[r.pos - 1];
        (r.status == TooManyHeaders <==>
          IsLabelItem(last) &&
          (last.dataType == TypeInt64 ==> |IntValues(s, pos, r.pos - 1)| == LIST_SLOTS) &&
          (last.dataType == TypeByteString ==> |StrValues(s, pos, r.pos - 1)| == LIST_SLOTS)))
  {
    assert FillInts([]) == ClearedLists().ints;
    assert FillStrs([]) == ClearedLists().strs;
    CritLoopSuccess(s, pos, pos, 0, 0, 0, ClearedLists());
    CritLoopLastItem(s, pos, 0, 0, 0, ClearedLists());
    CritLoopFull(s, pos, pos, 0, 0, 0, ClearedLists());
  }

  /** End of the array is found by nesting level: when the first element's
      nesting level is not 0, a successful parse consumed elements at that
      level and then exactly one item at another level (the item after the
      array, which is type-checked and stored like an element). */
  lemma {:induction false} CritLoopStopsOnLevelChange(s: Stream, pos: nat, nestLevel: nat, numInts: nat, numStrs: nat, l: LabelLists)
    requires pos <= |s.items| && WellSized(l) && numInts <= LIST_SLOTS && numStrs <= LIST_SLOTS
    requires nestLevel != 0
    ensures var r := CritLoop(s, pos, nestLevel, numInts, numStrs, l);
      r.status == Success ==>
        (forall k :: pos <= k < r.pos - 1 ==> s.items[k].nestingLevel == nestLevel) &&
        s.items[r.pos - 1].nestingLevel != nestLevel
    decreases |s.items| - pos
  {
    if pos < |s.items| {
      var item := s.items[pos];
      if item.nestingLevel == nestLevel {
        if item.dataType == TypeInt64 && numInts < LIST_SLOTS {
          CritLoopStopsOnLevelChange(s, pos + 1, nestLevel, numInts + 1, numStrs, l.(ints := l.ints[numInts := item.intVal]));
        } else if item.dataType == TypeByteString && numStrs < LIST_SLOTS {
          CritLoopStopsOnLevelChange(s, pos + 1, nestLevel, numInts, numStrs + 1, l.(strs := l.strs[numStrs := Bytes(item.strVal)]));
        }
      }
    }
  }

  lemma ParseCriticalStopsOnLevelChange(s: Stream, pos: nat)
    requires pos < |s.items| && s.items[pos].nestingLevel != 0
    ensures var r := ParseCritical(s, pos);
      r.status == Success ==>
        (forall k :: pos <= k < r.pos - 1 ==> s.items[k].nestingLevel == s.items[pos].nestingLevel) &&
        s.items[r.pos - 1].nestingLevel != s.items[pos].nestingLevel
  {
    var item := s.items[pos];
    var level := item.nestingLevel;
    var l := ClearedLists();
    if item.dataType == TypeInt64 {
      CritLoopStopsOnLevelChange(s, pos + 1, level, 1, 0, l.(ints := l.ints[0 := item.intVal]));
    } else if item.dataType == TypeByteString {
      CritLoopStopsOnLevelChange(s, pos + 1, level, 0, 1, l.(strs := l.strs[0 := Bytes(item.strVal)]));
    }
  }

  /** `parse_critical_headers` */
  method ParseCriticalHeaders(d: Decoder, critical: HeaderList) returns (status: Status)
    requires d.Valid() && critical.Valid()
    modifies d, critical.intLabels, critical.strLabels
    ensures d.Valid()
    ensures CritResult(status, d.pos, critical.Contents()) == ParseCritical(d.stream, old(d.pos))
  {
    critical.Clear();
    var numInts: nat := 0;
    var numStrs: nat := 0;
    var nestLevel: nat := 0;
    while true
      invariant d.Valid() && numInts <= LIST_SLOTS && numStrs <= LIST_SLOTS
      invariant CritLoop(d.stream, d.pos, nestLevel, numInts, numStrs, critical.Contents()) == ParseCritical(d.stream, old(d.pos))
      decreases |d.stream.items| - d.pos
    {
      var err, item := d.GetNext();
      if err != QCBOR_SUCCESS {
        return CborNotWellFormed;
      }
      if nestLevel == 0 {
        nestLevel := item.nestingLevel;
      }
      if item.dataType == TypeInt64 {
        if numInts == LIST_SLOTS {
          return TooManyHeaders;
        }
        critical.intLabels[numInts] := item.intVal;
        numInts := numInts + 1;
      } else if item.dataType == TypeByteString {
        if numStrs == LIST_SLOTS {
          return TooManyHeaders;
        }
        critical.strLabels[numStrs] := Bytes(item.strVal);
        numStrs := numStrs + 1;
      } else {
        return CborStructure;
      }
      if nestLevel != item.nestingLevel {
        return Success;
      }
    }
  }
}
