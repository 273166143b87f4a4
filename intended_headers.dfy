/** The header-map parse as its comments and its own bookkeeping say it was
    meant to work, for the critical-header check. The code as written (in
    `HeaderParser`) differs in four places, and here each is put right:
    an unknown header is filed by its label rather than by its value; the
    crit case ends after its array instead of falling through to the
    unknown-header path; the crit array is read up to its own end, not one
    item beyond it; and the map loop tests the nesting level that follows
    the entry just processed (`next_nest_level`, which the code computes and
    never reads). Everything else, from the label checks to the bounded
    lists and `check_critical_headers`, is the code as it stands.

    The partner of the corrected parse is `MapKeys`, a walk over the map
    that collects the labels of the unknown entries and the elements of the
    crit array as sets, with no capacity limit. */
module IntendedHeaders {
  import opened Cbor
  import opened Cose
  import opened HeaderLists
  import opened ItemSkipper
  import opened CriticalHeaders
  import opened HeaderParser
  import opened HeaderProperties

  /** A label as the critical-header check compares it. */
  datatype Key = IntKey(i: int) | StrKey(b: seq<byte>)

  function IntKeys(s: seq<int>): set<Key>
  {
    set x | x in s :: IntKey(x)
  }

  function StrKeys(s: seq<Buf>): set<Key>
  {
    set b | b in s && b.Bytes? :: StrKey(b.data)
  }

  /** The labels a list holds, as far as its scans see. */
  function ListKeys(l: LabelLists): set<Key>
  {
    IntKeys(IntEntries(l.ints)) + StrKeys(StrEntries(l.strs))
  }

  /** What filing `item` by its value adds to a list: an integer other than
      the terminator 0, or a byte string. */
  function ValueKeys(item: Item): set<Key>
  {
    if item.dataType == TypeInt64 && item.intVal != HEADER_ALG_LIST_TERMINATOR then {IntKey(item.intVal)}
    else if item.dataType == TypeByteString then {StrKey(item.strVal)}
    else {}
  }

  /** The same for a map entry's label. */
  function LabelKeys(item: Item): set<Key>
  {
    if item.labelType == TypeInt64 && item.intLabel != HEADER_ALG_LIST_TERMINATOR then {IntKey(item.intLabel)}
    else if item.labelType == TypeByteString then {StrKey(item.strLabel)}
    else {}
  }

  /** A map entry's label put where `add_header_label_to_list` looks, as
      the comment at its call site asks for. */
  function LabelAsValue(item: Item): (v: Item)
    ensures ValueKeys(v) == LabelKeys(item)
  {
    item.(dataType := item.labelType, intVal := item.intLabel, strVal := item.strLabel)
  }

  predicate IsCritEntry(item: Item)
  {
    item.labelType == TypeInt64 && item.intLabel == COSE_HEADER_PARAM_CRIT
  }

  lemma IntKeysAppend(s: seq<int>, t: seq<int>)
    ensures IntKeys(s + t) == IntKeys(s) + IntKeys(t)
  {
    forall k | k in IntKeys(s + t)
      ensures k in IntKeys(s) + IntKeys(t)
    {
      var x :| x in s + t && k == IntKey(x);
      if x in s { assert k in IntKeys(s); } else { assert k in IntKeys(t); }
    }
  }

  lemma StrKeysAppend(s: seq<Buf>, t: seq<Buf>)
    ensures StrKeys(s + t) == StrKeys(s) + StrKeys(t)
  {
    forall k | k in StrKeys(s + t)
      ensures k in StrKeys(s) + StrKeys(t)
    {
      var b :| b in s + t && b.Bytes? && k == StrKey(b.data);
      if b in s { assert k in StrKeys(s); } else { assert k in StrKeys(t); }
    }
  }

  /** Adding an integer or byte string to a packed list adds exactly its
      key to the labels the list holds, unless the list is full. */
  lemma AddKeys(l: LabelLists, item: Item)
    requires WellSized(l) && Packed(l) && IsLabelItem(item)
    ensures var r := AddLabel(l, item);
      Packed(r.lists) &&
      (r.status == Success ==> ListKeys(r.lists) == ListKeys(l) + ValueKeys(item))
  {
    var r := AddLabel(l, item);
    if item.dataType == TypeInt64 {
      AddIntAppends(l, item);
      if r.status == Success {
        var v := if item.intVal == HEADER_ALG_LIST_TERMINATOR then [] else [item.intVal];
        IntKeysAppend(IntEntries(l.ints), v);
        assert IntKeys(v) == ValueKeys(item);
      }
    } else {
      AddStrAppends(l, item);
      if r.status == Success {
        StrKeysAppend(StrEntries(l.strs), [Bytes(item.strVal)]);
        assert StrKeys([Bytes(item.strVal)]) == ValueKeys(item);
      }
    }
  }

  /** The two lists share a label, as `check_critical_headers` sees it,
      exactly when their sets of labels meet. */
  lemma SharesKeys(critical: LabelLists, unknown: LabelLists)
    ensures SharesLabel(critical, unknown) <==> ListKeys(unknown) * ListKeys(critical) != {}
  {
    var ui, ci := IntEntries(unknown.ints), IntEntries(critical.ints);
    var us, cs := StrEntries(unknown.strs), StrEntries(critical.strs);
    if SharesLabel(critical, unknown) {
      if exists k, m :: 0 <= k < FirstZero(unknown.ints) && 0 <= m < FirstZero(critical.ints) && unknown.ints[k] == critical.ints[m] {
        var k, m :| 0 <= k < FirstZero(unknown.ints) && 0 <= m < FirstZero(critical.ints) && unknown.ints[k] == critical.ints[m];
        assert ui[k] == unknown.ints[k] && ci[m] == critical.ints[m];
        assert IntKey(ui[k]) in IntKeys(ui) && IntKey(ci[m]) in IntKeys(ci);
        assert IntKey(ui[k]) in ListKeys(unknown) * ListKeys(critical);
      } else {
        var k, m :| 0 <= k < FirstNull(unknown.strs) && 0 <= m < FirstNull(critical.strs) && unknown.strs[k] == critical.strs[m];
        assert us[k] == unknown.strs[k] && cs[m] == critical.strs[m];
        assert us[k] != NullBuf;
        assert StrKey(us[k].data) in StrKeys(us) && StrKey(cs[m].data) in StrKeys(cs);
        assert StrKey(us[k].data) in ListKeys(unknown) * ListKeys(critical);
      }
    }
    if ListKeys(unknown) * ListKeys(critical) != {} {
      var key :| key in ListKeys(unknown) * ListKeys(critical);
      if key.IntKey? {
        assert key in IntKeys(ui) && key in IntKeys(ci);
        var x :| x in ui && key == IntKey(x);
        var y :| y in ci && key == IntKey(y);
        var k :| 0 <= k < |ui| && ui[k] == x;
        var m :| 0 <= m < |ci| && ci[m] == y;
        assert 0 <= k < FirstZero(unknown.ints) && unknown.ints[k] == x;
        assert 0 <= m < FirstZero(critical.ints) && critical.ints[m] == y;
      } else {
        assert key in StrKeys(us) && key in StrKeys(cs);
        var b :| b in us && b.Bytes? && key == StrKey(b.data);
        var c :| c in cs && c.Bytes? && key == StrKey(c.data);
        var k :| 0 <= k < |us| && us[k] == b;
        var m :| 0 <= m < |cs| && cs[m] == c;
        assert 0 <= k < FirstNull(unknown.strs) && unknown.strs[k] == b;
        assert 0 <= m < FirstNull(critical.strs) && critical.strs[m] == c;
      }
    }
  }

  datatype ArrayResult = ArrayResult(status: Status, pos: nat, lists: LabelLists, nextNestLevel: nat)

  /** The crit array read up to its own end: elements are fetched while
      the nesting level after the item last read is above the array's own,
      and each is filed by its value. */
  function CritArray(s: Stream, pos: nat, arrayLevel: nat, curNext: nat, l: LabelLists): (r: ArrayResult)
    requires pos <= |s.items| && WellSized(l)
    ensures pos <= r.pos <= |s.items| && WellSized(r.lists)
    ensures r.status == Success || r.status == TooManyHeaders || r.status == CborStructure || r.status == CborNotWellFormed
    decreases |s.items| - pos
  {
    if curNext <= arrayLevel then ArrayResult(Success, pos, l, curNext)
    else if pos == |s.items| then ArrayResult(CborNotWellFormed, pos, l, 0)
    else
      var a := AddLabel(l, s.items[pos]);
      if a.status != Success then ArrayResult(a.status, pos + 1, l, 0)
      else CritArray(s, pos + 1, arrayLevel, s.items[pos].nextNestLevel, a.lists)
  }

  datatype FixedResult = FixedResult(status: Status, pos: nat, headers: Headers, unknown: LabelLists,
                                     critical: LabelLists, nextNestLevel: nat)

  /** One pass of the loop body, corrected: crit stops after its array, an
      unknown entry is filed by its label and its value skipped. The other
      known labels are handled as written. */
  function FixedEntryStep(s: Stream, pos: nat, item: Item, h: Headers, unknown: LabelLists, critical: LabelLists): (r: FixedResult)
    requires pos <= |s.items| && WellSized(unknown) && WellSized(critical)
    ensures pos <= r.pos <= |s.items| && WellSized(r.unknown) && WellSized(r.critical)
    ensures r.status != UnknownCriticalHeader
  {
    if IsCritEntry(item) then
      if item.dataType != TypeArray then FixedResult(Sign1Format, pos, h, unknown, critical, 0)
      else
        var c := CritArray(s, pos, item.nestingLevel, item.nextNestLevel, ClearedLists());
        FixedResult(c.status, c.pos, h, unknown, c.lists, c.nextNestLevel)
    else if KnownLabel(item) then
      var e := EntryStep(s, pos, item, h, unknown, critical);
      FixedResult(e.status, e.pos, e.headers, e.unknown, e.critical, item.nextNestLevel)
    else
      var a := AddLabel(unknown, LabelAsValue(item));
      if a.status != Success then FixedResult(a.status, pos, h, unknown, critical, 0)
      else
        var c := Consume(s, pos, item);
        if c.err != QCBOR_SUCCESS then FixedResult(CborNotWellFormed, c.pos, h, a.lists, critical, 0)
        else FixedResult(Success, c.pos, h, a.lists, critical, c.nextNestLevel)
  }

  /** The loop of `parse_cose_headers`, corrected, from cursor `pos`. */
  function FixedHeadersLoop(s: Stream, pos: nat, endLevel: nat, curNext: nat, h: Headers,
                            unknown: LabelLists, critical: LabelLists): (r: ParseResult)
    requires pos <= |s.items| && WellSized(unknown) && WellSized(critical)
    ensures pos <= r.pos <= |s.items|
    decreases |s.items| - pos
  {
    if curNext <= endLevel then ParseResult(CheckCriticalHeaders(critical, unknown), h, pos)
    else if pos == |s.items| then ParseResult(CborNotWellFormed, h, pos)
    else
      var e := FixedEntryStep(s, pos + 1, s.items[pos], h, unknown, critical);
      if e.status != Success then ParseResult(e.status, e.headers, e.pos)
      else FixedHeadersLoop(s, e.pos, endLevel, e.nextNestLevel, e.headers, e.unknown, e.critical)
  }

  /** `parse_cose_headers`, corrected, on a stream positioned at the map. */
  function FixedParseHeaders(s: Stream, pos: nat): (r: ParseResult)
    requires pos <= |s.items|
    ensures pos <= r.pos <= |s.items|
  {
    var first := ItemAt(s, pos);
    var afterFirst := if pos < |s.items| then pos + 1 else pos;
    if first.dataType != TypeMap then ParseResult(CborStructure, ZeroHeaders, afterFirst)
    else FixedHeadersLoop(s, afterFirst, first.nestingLevel, first.nextNestLevel, ZeroHeaders, ClearedLists(), ClearedLists())
  }

  datatype Walk = Walk(pos: nat, nextNestLevel: nat, keys: set<Key>)

  /** The keys of the elements of an array, walked by nesting level. */
  function ArrayKeys(s: Stream, pos: nat, arrayLevel: nat, curNext: nat): (w: Walk)
    requires pos <= |s.items|
    ensures pos <= w.pos <= |s.items|
    decreases |s.items| - pos
  {
    if curNext <= arrayLevel || pos == |s.items| then Walk(pos, curNext, {})
    else
      var w := ArrayKeys(s, pos + 1, arrayLevel, s.items[pos].nextNestLevel);
      w.(keys := ValueKeys(s.items[pos]) + w.keys)
  }

  datatype MapWalk = MapWalk(pos: nat, unknownKeys: set<Key>, critKeys: set<Key>)

  /** The labels of a map's entries, walked entry by entry with no bound on
      their number: each unknown entry adds its label to `uk`, a crit entry
      sets `ck` to the elements of its array; values are skipped. */
  function MapKeys(s: Stream, pos: nat, endLevel: nat, curNext: nat, uk: set<Key>, ck: set<Key>): (w: MapWalk)
    requires pos <= |s.items|
    decreases |s.items| - pos
  {
    if curNext <= endLevel || pos == |s.items| then MapWalk(pos, uk, ck)
    else
      var item := s.items[pos];
      if IsCritEntry(item) then
        var a := ArrayKeys(s, pos + 1, item.nestingLevel, item.nextNestLevel);
        MapKeys(s, a.pos, endLevel, a.nextNestLevel, uk, a.keys)
      else if KnownLabel(item) then MapKeys(s, pos + 1, endLevel, item.nextNestLevel, uk, ck)
      else
        var c := Consume(s, pos + 1, item);
        MapKeys(s, c.pos, endLevel, c.nextNestLevel, uk + LabelKeys(item), ck)
  }

  /** A crit array read to its end leaves a packed list holding the keys of
      its elements, and stops where the walk over them stops. */
  lemma {:induction false} CritArrayKeys(s: Stream, pos: nat, arrayLevel: nat, curNext: nat, l: LabelLists)
    requires pos <= |s.items| && WellSized(l) && Packed(l)
    ensures var r := CritArray(s, pos, arrayLevel, curNext, l);
      var w := ArrayKeys(s, pos, arrayLevel, curNext);
      r.status == Success ==>
        r.pos == w.pos && r.nextNestLevel == w.nextNestLevel &&
        Packed(r.lists) && ListKeys(r.lists) == ListKeys(l) + w.keys
    decreases |s.items| - pos
  {
    if curNext > arrayLevel && pos < |s.items| {
      var item := s.items[pos];
      var a := AddLabel(l, item);
      if a.status == Success {
        AddKeys(l, item);
        CritArrayKeys(s, pos + 1, arrayLevel, item.nextNestLevel, a.lists);
      }
    }
  }

  /** A list that was just cleared holds no labels. */
  lemma ClearedHoldsNone()
    ensures Packed(ClearedLists()) && ListKeys(ClearedLists()) == {}
  {
    ClearedIsEmpty();
  }

  /** A crit entry read to the end of its array replaces the critical
      labels with the keys of its elements, as the walk does. */
  lemma FixedCritStep(s: Stream, pos: nat, endLevel: nat, curNext: nat, h: Headers,
                      unknown: LabelLists, critical: LabelLists)
    requires pos < |s.items| && curNext > endLevel && IsCritEntry(s.items[pos])
    requires WellSized(unknown) && WellSized(critical) && Packed(unknown) && Packed(critical)
    ensures var e := FixedEntryStep(s, pos + 1, s.items[pos], h, unknown, critical);
      e.status == Success ==>
        Packed(e.unknown) && Packed(e.critical) &&
        MapKeys(s, pos, endLevel, curNext, ListKeys(unknown), ListKeys(critical))
          == MapKeys(s, e.pos, endLevel, e.nextNestLevel, ListKeys(e.unknown), ListKeys(e.critical))
  {
    var item := s.items[pos];
    var e := FixedEntryStep(s, pos + 1, item, h, unknown, critical);
    if e.status == Success {
      var c := CritArray(s, pos + 1, item.nestingLevel, item.nextNestLevel, ClearedLists());
      assert e == FixedResult(c.status, c.pos, h, unknown, c.lists, c.nextNestLevel);
      ClearedHoldsNone();
      CritArrayKeys(s, pos + 1, item.nestingLevel, item.nextNestLevel, ClearedLists());
      var a := ArrayKeys(s, pos + 1, item.nestingLevel, item.nextNestLevel);
      assert c.pos == a.pos && c.nextNestLevel == a.nextNestLevel && ListKeys(c.lists) == a.keys;
      assert MapKeys(s, pos, endLevel, curNext, ListKeys(unknown), ListKeys(critical))
          == MapKeys(s, a.pos, endLevel, a.nextNestLevel, ListKeys(unknown), a.keys);
    }
  }

  /** An unknown entry filed by its label adds that label, as the walk does,
      and both skip its value. */
  lemma FixedUnknownStep(s: Stream, pos: nat, endLevel: nat, curNext: nat, h: Headers,
                         unknown: LabelLists, critical: LabelLists)
    requires pos < |s.items| && curNext > endLevel && !KnownLabel(s.items[pos])
    requires WellSized(unknown) && WellSized(critical) && Packed(unknown) && Packed(critical)
    ensures var e := FixedEntryStep(s, pos + 1, s.items[pos], h, unknown, critical);
      e.status == Success ==>
        Packed(e.unknown) && Packed(e.critical) &&
        MapKeys(s, pos, endLevel, curNext, ListKeys(unknown), ListKeys(critical))
          == MapKeys(s, e.pos, endLevel, e.nextNestLevel, ListKeys(e.unknown), ListKeys(e.critical))
  {
    var item := s.items[pos];
    var e := FixedEntryStep(s, pos + 1, item, h, unknown, critical);
    if e.status == Success {
      var a := AddLabel(unknown, LabelAsValue(item));
      var c := Consume(s, pos + 1, item);
      assert e == FixedResult(Success, c.pos, h, a.lists, critical, c.nextNestLevel);
      AddKeys(unknown, LabelAsValue(item));
      assert MapKeys(s, pos, endLevel, curNext, ListKeys(unknown), ListKeys(critical))
          == MapKeys(s, c.pos, endLevel, c.nextNestLevel, ListKeys(unknown) + LabelKeys(item), ListKeys(critical));
    }
  }

  /** Alg, kid, IV and Partial IV leave both lists alone and are a single
      item, for the loop and the walk alike. */
  lemma FixedKnownStep(s: Stream, pos: nat, endLevel: nat, curNext: nat, h: Headers,
                       unknown: LabelLists, critical: LabelLists)
    requires pos < |s.items| && curNext > endLevel && KnownLabel(s.items[pos]) && !IsCritEntry(s.items[pos])
    requires WellSized(unknown) && WellSized(critical)
    ensures var e := FixedEntryStep(s, pos + 1, s.items[pos], h, unknown, critical);
      e.status == Success ==>
        e.unknown == unknown && e.critical == critical &&
        MapKeys(s, pos, endLevel, curNext, ListKeys(unknown), ListKeys(critical))
          == MapKeys(s, e.pos, endLevel, e.nextNestLevel, ListKeys(e.unknown), ListKeys(e.critical))
  {
    var item := s.items[pos];
    var e := FixedEntryStep(s, pos + 1, item, h, unknown, critical);
    var d := EntryStep(s, pos + 1, item, h, unknown, critical);
    assert d.pos == pos + 1 && d.unknown == unknown && d.critical == critical;
    assert e.pos == pos + 1 && e.nextNestLevel == item.nextNestLevel;
  }

  /** Whenever the corrected loop gets as far as the critical-header check,
      it has walked the map as `MapKeys` does, and it reports
      UnknownCriticalHeader exactly when some unknown label met is among the
      critical labels. */
  lemma {:induction false} FixedLoopFlags(s: Stream, pos: nat, endLevel: nat, curNext: nat, h: Headers,
                                          unknown: LabelLists, critical: LabelLists)
    requires pos <= |s.items| && WellSized(unknown) && WellSized(critical) && Packed(unknown) && Packed(critical)
    ensures var r := FixedHeadersLoop(s, pos, endLevel, curNext, h, unknown, critical);
      var w := MapKeys(s, pos, endLevel, curNext, ListKeys(unknown), ListKeys(critical));
      (r.status == Success || r.status == UnknownCriticalHeader) ==>
        r.pos == w.pos && (r.status == UnknownCriticalHeader <==> w.unknownKeys * w.critKeys != {})
    decreases |s.items| - pos
  {
    if curNext <= endLevel {
      SharesKeys(critical, unknown);
    } else if pos < |s.items| {
      var e := FixedEntryStep(s, pos + 1, s.items[pos], h, unknown, critical);
      if e.status == Success {
        if IsCritEntry(s.items[pos]) {
          FixedCritStep(s, pos, endLevel, curNext, h, unknown, critical);
        } else if KnownLabel(s.items[pos]) {
          FixedKnownStep(s, pos, endLevel, curNext, h, unknown, critical);
        } else {
          FixedUnknownStep(s, pos, endLevel, curNext, h, unknown, critical);
        }
        FixedLoopFlags(s, e.pos, endLevel, e.nextNestLevel, e.headers, e.unknown, e.critical);
      }
    }
  }

  /** The corrected parse, whenever it reaches the critical-header check,
      read a map and reports UnknownCriticalHeader exactly when an unknown
      label of that map is listed in its crit array. */
  lemma FixedParseFlagsCritical(s: Stream, pos: nat)
    requires pos <= |s.items|
    ensures var r := FixedParseHeaders(s, pos);
      (r.status == Success || r.status == UnknownCriticalHeader) ==>
        pos < |s.items| && s.items[pos].dataType == TypeMap &&
        var w := MapKeys(s, pos + 1, s.items[pos].nestingLevel, s.items[pos].nextNestLevel, {}, {});
        r.pos == w.pos && (r.status == UnknownCriticalHeader <==> w.unknownKeys * w.critKeys != {})
  {
    if pos < |s.items| && s.items[pos].dataType == TypeMap {
      ClearedHoldsNone();
      FixedLoopFlags(s, pos + 1, s.items[pos].nestingLevel, s.items[pos].nextNestLevel, ZeroHeaders, ClearedLists(), ClearedLists());
    }
  }

  /** The map `{2: [7], 7: 1}`: crit lists label 7, and an unknown header
      labelled 7 follows. */
  const CritExample := Stream([
    Item(TypeMap, TypeNone, 0, [], 0, [], 2, false, 0, 1),
    Item(TypeArray, TypeInt64, COSE_HEADER_PARAM_CRIT, [], 0, [], 1, false, 1, 2),
    Item(TypeInt64, TypeNone, 0, [], 7, [], 0, false, 2, 1),
    Item(TypeInt64, TypeInt64, 7, [], 1, [], 0, false, 1, 0)], 1)

  /** On that map the parse as written refuses the crit entry with
      CborStructure, since its array value is then filed as an unknown
      header, while the corrected parse finds the critical label 7 among
      the unknown ones. */
  lemma CritExampleDiffers()
    ensures ParseHeaders(CritExample, 0).status == CborStructure
    ensures FixedParseHeaders(CritExample, 0).status == UnknownCriticalHeader
  {
    var s := CritExample;
    var cleared := ClearedLists();
    ClearedIsEmpty();
    var l7 := cleared.(ints := cleared.ints[0 := 7]);
    var l71 := l7.(ints := l7.ints[1 := 1]);
    // as written: crit reads 7, then the next entry as a second element
    assert CritLoop(s, 3, 2, 1, 0, l7) == CritResult(Success, 4, l71);
    assert ParseCritical(s, 2) == CritResult(Success, 4, l71);
    assert AddLabel(cleared, s.items[1]).status == CborStructure;
    assert EntryStep(s, 2, s.items[1], ZeroHeaders, cleared, cleared).status == CborStructure;
    // corrected: crit reads 7 and stops; entry 7 is filed by its label
    assert CritArray(s, 3, 1, 1, l7) == ArrayResult(Success, 3, l7, 1);
    assert CritArray(s, 2, 1, 2, cleared) == ArrayResult(Success, 3, l7, 1);
    assert FixedParseHeaders(s, 0) == FixedHeadersLoop(s, 3, 0, 1, ZeroHeaders, cleared, l7);
    assert AddLabel(cleared, LabelAsValue(s.items[3])) == AddResult(Success, l7);
    assert FixedEntryStep(s, 4, s.items[3], ZeroHeaders, cleared, l7) == FixedResult(Success, 4, ZeroHeaders, l7, l7, 0);
    assert FixedParseHeaders(s, 0) == FixedHeadersLoop(s, 4, 0, 0, ZeroHeaders, l7, l7);
    assert IntClash(l7.ints, 0, l7.ints);
  }
}
