/** The fixed-capacity header-label lists (`struct t_cose_header_list`) and
    the critical-header check over two of them.

    A list is two arrays of HEADER_LIST_MAX + 1 slots: integer labels, ended by
    the first 0, and byte-string labels, ended by the first NULL view. When all
    HEADER_LIST_MAX + 1 slots are used there is no terminator left; the scans
    here stop at the end of the array where the C code reads past it. */
module HeaderLists {
  import opened Cbor
  import opened Cose

  /** `T_COSE_HEADER_LIST_MAX`: ten labels of each kind. */
  const HEADER_LIST_MAX: nat := 10
  const LIST_SLOTS: nat := HEADER_LIST_MAX + 1

  /** `HEADER_ALG_LIST_TERMINATOR` */
  const HEADER_ALG_LIST_TERMINATOR: int := 0

  /** The contents of one list: every slot of both arrays. */
  datatype LabelLists = LabelLists(ints: seq<int>, strs: seq<Buf>)

  predicate WellSized(l: LabelLists)
  {
    |l.ints| == LIST_SLOTS && |l.strs| == LIST_SLOTS
  }

  /** A list after `clear_header_list`: every slot holds its terminator. */
  function ClearedLists(): (l: LabelLists)
    ensures WellSized(l)
    ensures forall i :: 0 <= i < LIST_SLOTS ==> l.ints[i] == HEADER_ALG_LIST_TERMINATOR && l.strs[i] == NullBuf
  {
    LabelLists(seq(LIST_SLOTS, _ => HEADER_ALG_LIST_TERMINATOR), seq(LIST_SLOTS, _ => NullBuf))
  }

  /** Index of the first integer terminator, or the length when there is none. */
  function FirstZero(s: seq<int>): (n: nat)
    ensures n <= |s|
    ensures forall i :: 0 <= i < n ==> s[i] != HEADER_ALG_LIST_TERMINATOR
    ensures n < |s| ==> s[n] == HEADER_ALG_LIST_TERMINATOR
  {
    if s == [] || s[0] == HEADER_ALG_LIST_TERMINATOR then 0 else 1 + FirstZero(s[1..])
  }

  /** Index of the first NULL view, or the length when there is none. */
  function FirstNull(s: seq<Buf>): (n: nat)
    ensures n <= |s|
    ensures forall i :: 0 <= i < n ==> s[i] != NullBuf
    ensures n < |s| ==> s[n] == NullBuf
  {
    if s == [] || s[0] == NullBuf then 0 else 1 + FirstNull(s[1..])
  }

  /** The labels a scan to the terminator sees. */
  function IntEntries(s: seq<int>): seq<int>
  {
    s[..FirstZero(s)]
  }

  function StrEntries(s: seq<Buf>): seq<Buf>
  {
    s[..FirstNull(s)]
  }

  /** Every slot after a terminator is a terminator too: the shape that
      appending at the first terminator keeps. */
  predicate PackedInts(s: seq<int>)
  {
    forall i, j :: 0 <= i < j < |s| && s[i] == HEADER_ALG_LIST_TERMINATOR ==> s[j] == HEADER_ALG_LIST_TERMINATOR
  }

  predicate PackedStrs(s: seq<Buf>)
  {
    forall i, j :: 0 <= i < j < |s| && s[i] == NullBuf ==> s[j] == NullBuf
  }

  predicate Packed(l: LabelLists)
  {
    PackedInts(l.ints) && PackedStrs(l.strs)
  }

  datatype AddResult = AddResult(status: Status, lists: LabelLists)

  /** `add_header_label_to_list` on list contents. As the source is written, it
      looks at the item's data type and value (`uDataType`, `val`), not at its
      label. */
  function AddLabel(l: LabelLists, item: Item): (r: AddResult)
    requires WellSized(l)
    ensures WellSized(r.lists)
    ensures r.status == Success || r.status == TooManyHeaders || r.status == CborStructure
    ensures r.status != Success ==> r.lists == l
    ensures r.status == CborStructure <==> item.dataType != TypeInt64 && item.dataType != TypeByteString
    ensures item.dataType == TypeInt64 ==>
      (r.status == TooManyHeaders <==> HEADER_ALG_LIST_TERMINATOR !in l.ints)
    ensures item.dataType == TypeByteString ==>
      (r.status == TooManyHeaders <==> NullBuf !in l.strs)
    ensures r.status == Success && item.dataType == TypeInt64 ==>
      r.lists.strs == l.strs &&
      (forall i :: 0 <= i < LIST_SLOTS && i != FirstZero(l.ints) ==> r.lists.ints[i] == l.ints[i]) &&
      l.ints[FirstZero(l.ints)] == HEADER_ALG_LIST_TERMINATOR && r.lists.ints[FirstZero(l.ints)] == item.intVal
    ensures r.status == Success && item.dataType == TypeByteString ==>
      r.lists.ints == l.ints &&
      (forall i :: 0 <= i < LIST_SLOTS && i != FirstNull(l.strs) ==> r.lists.strs[i] == l.strs[i]) &&
      l.strs[FirstNull(l.strs)] == NullBuf && r.lists.strs[FirstNull(l.strs)] == Bytes(item.strVal)
  {
    if item.dataType == TypeInt64 then
      var n := FirstZero(l.ints);
      if n == LIST_SLOTS then AddResult(TooManyHeaders, l)
      else AddResult(Success, l.(ints := l.ints[n := item.intVal]))
    else if item.dataType == TypeByteString then
      var n := FirstNull(l.strs);
      if n == LIST_SLOTS then AddResult(TooManyHeaders, l)
      else AddResult(Success, l.(strs := l.strs[n := Bytes(item.strVal)]))
    else
      AddResult(CborStructure, l)
  }

  lemma FirstZeroAt(s: seq<int>, n: nat)
    requires n <= |s|
    requires forall i :: 0 <= i < n ==> s[i] != HEADER_ALG_LIST_TERMINATOR
    requires n < |s| ==> s[n] == HEADER_ALG_LIST_TERMINATOR
    ensures FirstZero(s) == n
  {
  }

  lemma FirstNullAt(s: seq<Buf>, n: nat)
    requires n <= |s|
    requires forall i :: 0 <= i < n ==> s[i] != NullBuf
    requires n < |s| ==> s[n] == NullBuf
    ensures FirstNull(s) == n
  {
  }

  /** On a packed list, adding an integer is appending it to the entries a
      scan sees; the list is full exactly when all slots hold entries. A
      value 0 is written over a terminator and so is lost. */
  lemma AddIntAppends(l: LabelLists, item: Item)
    requires WellSized(l) && Packed(l) && item.dataType == TypeInt64
    ensures var r := AddLabel(l, item);
      Packed(r.lists) &&
      (r.status == TooManyHeaders <==> |IntEntries(l.ints)| == LIST_SLOTS) &&
      (r.status == Success ==>
        StrEntries(r.lists.strs) == StrEntries(l.strs) &&
        IntEntries(r.lists.ints) == IntEntries(l.ints) + (if item.intVal == HEADER_ALG_LIST_TERMINATOR then [] else [item.intVal]))
  {
    var r := AddLabel(l, item);
    if r.status == Success {
      var s, n := l.ints, FirstZero(l.ints);
      var t := r.lists.ints;
      if item.intVal != HEADER_ALG_LIST_TERMINATOR {
        assert forall j :: n < j < |s| ==> s[j] == HEADER_ALG_LIST_TERMINATOR;
        FirstZeroAt(t, n + 1);
        assert t[..n + 1] == s[..n] + [item.intVal];
      }
    }
  }

  /** On a packed list, adding a byte string is appending it to the entries
      a scan sees; the list is full exactly when all slots hold entries. */
  lemma AddStrAppends(l: LabelLists, item: Item)
    requires WellSized(l) && Packed(l) && item.dataType == TypeByteString
    ensures var r := AddLabel(l, item);
      Packed(r.lists) &&
      (r.status == TooManyHeaders <==> |StrEntries(l.strs)| == LIST_SLOTS) &&
      (r.status == Success ==>
        IntEntries(r.lists.ints) == IntEntries(l.ints) &&
        StrEntries(r.lists.strs) == StrEntries(l.strs) + [Bytes(item.strVal)])
  {
    var r := AddLabel(l, item);
    if r.status == Success {
      var s, n := l.strs, FirstNull(l.strs);
      var t := r.lists.strs;
      assert forall j :: n < j < |s| ==> s[j] == NullBuf;
      FirstNullAt(t, n + 1);
      assert t[..n + 1] == s[..n] + [Bytes(item.strVal)];
    }
  }

  /** The free-slot scan of `add_header_label_to_list` as written: it tests
      only for the terminator, so on a list with no terminator it reads on
      through the words that follow, here `mem`, and stops at the first 0
      word or at the end of `mem`. */
  function ScanAsWritten(mem: seq<int>, n: nat): (r: nat)
    requires n <= |mem|
    ensures n <= r <= |mem|
    ensures r < |mem| ==> mem[r] == HEADER_ALG_LIST_TERMINATOR
    ensures forall i :: n <= i < r ==> mem[i] != HEADER_ALG_LIST_TERMINATOR
    decreases |mem| - n
  {
    if n == |mem| || mem[n] == HEADER_ALG_LIST_TERMINATOR then n else ScanAsWritten(mem, n + 1)
  }

  /** The words from `int_headers[0]` on as the integer scan reads them: the
      11 slots, then the first word of `tstr_headers[0]`, its pointer, which
      is non-zero (written 1) once a byte string is listed. */
  function IntWords(l: LabelLists): (mem: seq<int>)
    requires WellSized(l)
    ensures |mem| == LIST_SLOTS + 1 && mem[..LIST_SLOTS] == l.ints
    ensures mem[LIST_SLOTS] == (if l.strs[0] == NullBuf then 0 else 1)
  {
    l.ints + [if l.strs[0] == NullBuf then 0 else 1]
  }

  /** On a list whose 11 integer slots are all in use and which already
      holds a byte string, the scan as written does not stop at slot 11, so
      the full-list test misses and the value would be written past
      `int_headers`; `AddLabel`, which stops at slot 11, reports
      TOO_MANY_HEADERS there. */
  lemma IntScanOverruns(l: LabelLists, item: Item)
    requires WellSized(l) && item.dataType == TypeInt64
    requires forall i :: 0 <= i < LIST_SLOTS ==> l.ints[i] != HEADER_ALG_LIST_TERMINATOR
    requires l.strs[0] != NullBuf
    ensures ScanAsWritten(IntWords(l), 0) > LIST_SLOTS
    ensures AddLabel(l, item).status == TooManyHeaders
  {
    var mem := IntWords(l);
    assert forall i :: 0 <= i < LIST_SLOTS ==> mem[i] == l.ints[i];
    FirstZeroAt(l.ints, LIST_SLOTS);
  }

  /** Does the integer `x` occur in `crit` between slot `j` and the terminator?
      (the inner loop of `check_critical_headers`) */
  function IntListed(crit: seq<int>, j: nat, x: int): (b: bool)
    requires j <= FirstZero(crit)
    ensures b <==> exists k :: j <= k < FirstZero(crit) && crit[k] == x
    decreases |crit| - j
  {
    if j == |crit| || crit[j] == HEADER_ALG_LIST_TERMINATOR then false
    else crit[j] == x || IntListed(crit, j + 1, x)
  }

  /** Does some unknown integer label from slot `i` on occur in `crit`?
      (the outer loop) */
  function IntClash(unknown: seq<int>, i: nat, crit: seq<int>): (b: bool)
    requires i <= FirstZero(unknown)
    ensures b <==> exists k, m :: i <= k < FirstZero(unknown) && 0 <= m < FirstZero(crit) && unknown[k] == crit[m]
    decreases |unknown| - i
  {
    if i == |unknown| || unknown[i] == HEADER_ALG_LIST_TERMINATOR then false
    else IntListed(crit, 0, unknown[i]) || IntClash(unknown, i + 1, crit)
  }

  /** Byte-wise comparison of two views (`q_useful_buf_compare` returning 0). */
  predicate SameBytes(a: Buf, b: Buf)
  {
    BufBytes(a) == BufBytes(b)
  }

  function StrListed(crit: seq<Buf>, j: nat, x: Buf): (b: bool)
    requires j <= FirstNull(crit)
    requires x != NullBuf
    ensures b <==> exists k :: j <= k < FirstNull(crit) && crit[k] == x
    decreases |crit| - j
  {
    if j == |crit| || crit[j] == NullBuf then false
    else SameBytes(crit[j], x) || StrListed(crit, j + 1, x)
  }

  function StrClash(unknown: seq<Buf>, i: nat, crit: seq<Buf>): (b: bool)
    requires i <= FirstNull(unknown)
    ensures b <==> exists k, m :: i <= k < FirstNull(unknown) && 0 <= m < FirstNull(crit) && unknown[k] == crit[m]
    decreases |unknown| - i
  {
    if i == |unknown| || unknown[i] == NullBuf then false
    else StrListed(crit, 0, unknown[i]) || StrClash(unknown, i + 1, crit)
  }

  /** Some label is in both the unknown and the critical list, as far as the
      scans to the terminators see. */
  predicate SharesLabel(critical: LabelLists, unknown: LabelLists)
  {
    (exists k, m :: 0 <= k < FirstZero(unknown.ints) && 0 <= m < FirstZero(critical.ints) && unknown.ints[k] == critical.ints[m])
    || (exists k, m :: 0 <= k < FirstNull(unknown.strs) && 0 <= m < FirstNull(critical.strs) && unknown.strs[k] == critical.strs[m])
  }

  /** `check_critical_headers`: fails exactly when an unknown label is also
      listed as critical. */
  function CheckCriticalHeaders(critical: LabelLists, unknown: LabelLists): (r: Status)
    ensures r == Success || r == UnknownCriticalHeader
    ensures r == UnknownCriticalHeader <==> SharesLabel(critical, unknown)
  {
    if IntClash(unknown.ints, 0, critical.ints) || StrClash(unknown.strs, 0, critical.strs) then UnknownCriticalHeader
    else Success
  }

  /** A critical list that was cleared and never filled lets everything through. */
  lemma ClearedCriticalPasses(unknown: LabelLists)
    ensures CheckCriticalHeaders(ClearedLists(), unknown) == Success
  {
    var c := ClearedLists();
    FirstZeroAt(c.ints, 0);
    FirstNullAt(c.strs, 0);
  }

  /** `struct t_cose_header_list`: the two slot arrays, updated in place. */
  class HeaderList {
    const intLabels: array<int>
    const strLabels: array<Buf>

    ghost predicate Valid()
    {
      intLabels.Length == LIST_SLOTS && strLabels.Length == LIST_SLOTS
    }

    function Contents(): (l: LabelLists)
      reads intLabels, strLabels
      ensures Valid() ==> WellSized(l)
    {
      LabelLists(intLabels[..], strLabels[..])
    }

    constructor ()
      ensures Valid() && fresh(intLabels) && fresh(strLabels)
      ensures Contents() == ClearedLists()
    {
      intLabels := new int[LIST_SLOTS](_ => HEADER_ALG_LIST_TERMINATOR);
      strLabels := new Buf[LIST_SLOTS](_ => NullBuf);
      new;
      assert intLabels[..] == ClearedLists().ints;
      assert strLabels[..] == ClearedLists().strs;
    }

    /** `clear_header_list` */
    method Clear()
      requires Valid()
      modifies intLabels, strLabels
      ensures Contents() == ClearedLists()
    {
      forall i | 0 <= i < intLabels.Length {
        intLabels[i] := HEADER_ALG_LIST_TERMINATOR;
      }
      forall i | 0 <= i < strLabels.Length {
        strLabels[i] := NullBuf;
      }
      assert intLabels[..] == ClearedLists().ints;
      assert strLabels[..] == ClearedLists().strs;
    }

    /** `add_header_label_to_list`: scans to the first terminator of the
        matching array and writes the item's value there. */
    method Add(item: Item) returns (status: Status)
      requires Valid()
      modifies intLabels, strLabels
      ensures AddResult(status, Contents()) == AddLabel(old(Contents()), item)
    {
      status := Success;
      if item.dataType == TypeInt64 {
        var n := 0;
        while n < intLabels.Length && intLabels[n] != HEADER_ALG_LIST_TERMINATOR
          invariant 0 <= n <= intLabels.Length
          invariant forall i :: 0 <= i < n ==> intLabels[i] != HEADER_ALG_LIST_TERMINATOR
        {
          n := n + 1;
        }
        FirstZeroAt(intLabels[..], n);
        if n == LIST_SLOTS {
          status := TooManyHeaders;
          return;
        }
        intLabels[n] := item.intVal;
      } else if item.dataType == TypeByteString {
        var n := 0;
        while n < strLabels.Length && strLabels[n] != NullBuf
          invariant 0 <= n <= strLabels.Length
          invariant forall i :: 0 <= i < n ==> strLabels[i] != NullBuf
        {
          n := n + 1;
        }
        FirstNullAt(strLabels[..], n);
        if n == LIST_SLOTS {
          status := TooManyHeaders;
          return;
        }
        strLabels[n] := Bytes(item.strVal);
      } else {
        status := CborStructure;
      }
    }
  }
}
