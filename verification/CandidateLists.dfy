/** The CANDIDATELIST buffer of the IMM: layout, bounded string reads, and the two parsers of the hosts. */
module CandidateBuffers {
  import opened Unicode
  import opened ByteOrder

  const HEADER := 24  // the offset table starts after six DWORDs

  function Count(b: seq<Byte>): nat requires |b| >= HEADER { U32At(b, 8) }

  function Selection(b: seq<Byte>): nat requires |b| >= HEADER { U32At(b, 12) }

  function PageStart(b: seq<Byte>): nat requires |b| >= HEADER { U32At(b, 16) }

  function PageSize(b: seq<Byte>): nat requires |b| >= HEADER { U32At(b, 20) }

  /** The number of whole DWORDs behind the header. */
  function Slots(b: seq<Byte>): nat
    requires |b| >= HEADER
  {
    (|b| - HEADER) / 4
  }

  function Slot(b: seq<Byte>, i: nat): nat
    requires |b| >= HEADER && i < Slots(b)
  {
    U32At(b, HEADER + 4 * i)
  }

  /** The wide string at `p`: up to a zero unit or the last whole unit of the buffer. */
  function WideZ(b: seq<Byte>, p: nat): seq<Unit>
    decreases |b| - p
  {
    if p + 2 > |b| || U16At(b, p) == 0 then [] else [U16At(b, p)] + WideZ(b, p + 2)
  }

  /** The byte string at `p`: up to a zero byte or the end of the buffer. */
  function NarrowZ(b: seq<Byte>, p: nat): seq<Byte>
    decreases |b| - p
  {
    if p >= |b| || b[p] == 0 then [] else [b[p]] + NarrowZ(b, p + 1)
  }

  /** `t` is stored at `p`, and is ended by a zero or by the buffer. */
  ghost predicate WideAt(b: seq<Byte>, p: nat, t: seq<Unit>) {
    && (t != [] ==> p + 2 * |t| <= |b|)
    && (forall k :: 0 <= k < |t| && p + 2 * k + 2 <= |b| ==> t[k] != 0 && U16At(b, p + 2 * k) == t[k])
    && (p + 2 * |t| + 2 > |b| || U16At(b, p + 2 * |t|) == 0)
  }

  ghost predicate NarrowAt(b: seq<Byte>, p: nat, t: seq<Byte>) {
    && (t != [] ==> p + |t| <= |b|)
    && (forall k :: 0 <= k < |t| && p + k < |b| ==> t[k] != 0 && b[p + k] == t[k])
    && (p + |t| >= |b| || b[p + |t|] == 0)
  }

  lemma {:induction false} WideReadBack(b: seq<Byte>, p: nat, t: seq<Unit>)
    requires WideAt(b, p, t)
    ensures WideZ(b, p) == t
    decreases |t|
  {
    if t != [] {
      assert U16At(b, p + 2 * 0) == t[0];
      forall k | 0 <= k < |t[1..]|
        ensures t[1..][k] != 0 && U16At(b, p + 2 + 2 * k) == t[1..][k]
      {
        assert U16At(b, p + 2 * (k + 1)) == t[k + 1];
      }
      WideReadBack(b, p + 2, t[1..]);
    }
  }

  lemma {:induction false} NarrowReadBack(b: seq<Byte>, p: nat, t: seq<Byte>)
    requires NarrowAt(b, p, t)
    ensures NarrowZ(b, p) == t
    decreases |t|
  {
    if t != [] {
      assert b[p + 0] == t[0];
      forall k | 0 <= k < |t[1..]|
        ensures t[1..][k] != 0 && b[p + 1 + k] == t[1..][k]
      {
        assert b[p + (k + 1)] == t[k + 1];
      }
      NarrowReadBack(b, p + 1, t[1..]);
    }
  }

  /** A string read looks only at the bytes from its start on. */
  lemma {:induction false} WideDependsOnSuffix(a: seq<Byte>, p: nat, b: seq<Byte>, q: nat)
    requires p <= |a| && q <= |b| && a[p..] == b[q..]
    ensures WideZ(a, p) == WideZ(b, q)
    decreases |a| - p
  {
    assert |a| - p == |b| - q;
    if p + 2 <= |a| {
      assert a[p] == a[p..][0] == b[q] && a[p + 1] == a[p..][1] == b[q + 1];
      assert a[p + 2..] == a[p..][2..] == b[q + 2..];
      WideDependsOnSuffix(a, p + 2, b, q + 2);
    }
  }

  /** `read_utf16_z_at`; the v2 host's string loop stops at the same unit. */
  method ReadWideZ(b: seq<Byte>, offset: nat) returns (wide: seq<Unit>)
    ensures wide == WideZ(b, offset)
  {
    wide := [];
    if offset >= |b| {
      return;
    }
    var pos := offset;
    while pos + 1 < |b|
      invariant offset <= pos
      invariant wide + WideZ(b, pos) == WideZ(b, offset)
      decreases |b| - pos
    {
      var code := U16At(b, pos);
      if code == 0 {
        break;
      }
      wide := wide + [code];
      pos := pos + 2;
    }
  }
}

/** `get_candidate_list` of the v2 host. */
module MenuReader {
  import opened Wrappers
  import opened Unicode
  import opened ByteOrder
  import opened CandidateBuffers

  datatype Menu = Menu(candidates: seq<seq<Byte>>, pageSize: int, pageNo: int, highlighted: int, numCandidates: int)

  predicate IsOffset(b: seq<Byte>, v: nat) {
    0 < v < |b|
  }

  /** The first slot from `i` on that looks like an offset into the buffer, or 0. */
  function FirstOffset(b: seq<Byte>, i: nat): nat
    requires |b| >= HEADER
    decreases Slots(b) - i
  {
    if i >= Slots(b) then 0 else if IsOffset(b, Slot(b, i)) then i else FirstOffset(b, i + 1)
  }

  function BaseIndex(b: seq<Byte>): nat
    requires |b| >= HEADER
  {
    if Slots(b) > 0 && Slot(b, 0) != 0 then 0 else FirstOffset(b, 0)
  }

  predicate Readable(b: seq<Byte>, slot: nat)
    requires |b| >= HEADER
  {
    slot < Slots(b) && IsOffset(b, Slot(b, slot))
  }

  /** The `k`th counted slot lies in the table and holds a usable offset. */
  predicate Counted(b: seq<Byte>, base: nat, k: nat)
    requires |b| >= HEADER
  {
    Readable(b, base + k)
  }

  /** The texts of the slots `base + i .. base + count`; unusable offsets are skipped, the table's end stops. */
  function Texts(b: seq<Byte>, base: nat, i: nat, count: nat): seq<seq<Byte>>
    requires |b| >= HEADER
    decreases count - i
  {
    if i >= count || base + i >= Slots(b) then []
    else (if Counted(b, base, i) then [Text(WideZ(b, Slot(b, base + i)))] else []) + Texts(b, base, i + 1, count)
  }

  function PageSizeOf(b: seq<Byte>): int
    requires |b| >= HEADER
  {
    if PageSize(b) > 0 then ToI32(PageSize(b)) else 10
  }

  function MenuOf(b: seq<Byte>): Menu
    requires |b| >= HEADER
  {
    Menu(Texts(b, BaseIndex(b), 0, Count(b)), PageSizeOf(b),
         if PageSizeOf(b) > 0 then TruncatedDiv(ToI32(PageStart(b)), PageSizeOf(b)) else 0,
         ToI32(Selection(b)), ToI32(Count(b)))
  }

  method FindBase(b: seq<Byte>) returns (base: nat)
    requires |b| >= HEADER
    ensures base == BaseIndex(b)
  {
    base := 0;
    var slots := Slots(b);
    if slots == 0 || Slot(b, 0) == 0 {
      var idx := 0;
      while idx < slots
        invariant idx <= slots
        invariant FirstOffset(b, idx) == FirstOffset(b, 0)
      {
        if 0 < Slot(b, idx) < |b| {
          return idx;
        }
        idx := idx + 1;
      }
    }
  }

  method ReadTexts(b: seq<Byte>, base: nat, count: nat) returns (candidates: seq<seq<Byte>>)
    requires |b| >= HEADER
    ensures candidates == Texts(b, base, 0, count)
  {
    candidates := [];
    var slots := Slots(b);
    var i := 0;
    while i < count
      invariant i <= count
      invariant candidates + Texts(b, base, i, count) == Texts(b, base, 0, count)
    {
      if base + i >= slots {
        break;
      }
      var offset := Slot(b, base + i);
      if offset != 0 && offset < |b| {
        var wide := ReadWideZ(b, offset);
        candidates := candidates + [Text(wide)];
      }
      i := i + 1;
    }
    assert Texts(b, base, i, count) == [];
  }

  /** Every read is inside the buffer, whatever its contents; a buffer holds at least the fixed header. */
  method GetCandidateList(b: seq<Byte>, copied: nat) returns (menu: Option<Menu>)
    requires b == [] || |b| >= HEADER
    ensures menu == if b == [] || copied == 0 || Count(b) == 0 then None else Some(MenuOf(b))
  {
    if |b| == 0 || copied == 0 {
      return None;
    }
    var count := Count(b);
    if count == 0 {
      return None;
    }
    var base := FindBase(b);
    var candidates := ReadTexts(b, base, count);
    var pageSize := PageSizeOf(b);
    var pageNo := if pageSize > 0 then TruncatedDiv(ToI32(PageStart(b)), pageSize) else 0;
    menu := Some(Menu(candidates, pageSize, pageNo, ToI32(Selection(b)), ToI32(count)));
  }

  // ----- how many texts -----

  lemma {:induction false} TextCount(b: seq<Byte>, base: nat, i: nat, count: nat)
    requires |b| >= HEADER && i <= count
    ensures |Texts(b, base, i, count)| <= count - i
    ensures |Texts(b, base, i, count)| == count - i <==> forall k :: i <= k < count ==> Counted(b, base, k)
    decreases count - i
  {
    if i < count && base + i < Slots(b) {
      TextCount(b, base, i + 1, count);
    } else if i < count {
      assert !Counted(b, base, i);
    }
  }

  /** `menu.candidates(i)` is inside the repeated field. */
  predicate HasCandidate(m: Menu, i: nat) {
    i < |m.candidates|
  }

  /** `reserve(num_candidates)` throws for a negative number; then every `candidates(i)` below it is read. */
  ghost predicate PluginCompletes(m: Menu) {
    0 <= m.numCandidates && forall i :: 0 <= i < m.numCandidates ==> HasCandidate(m, i)
  }

  /**
   * The plugin gets through a menu exactly when every counted slot lies in the table and holds a usable offset, and
   * the count is no larger than a signed word holds.
   */
  lemma PluginCompletesIff(b: seq<Byte>)
    requires |b| >= HEADER
    ensures var m := MenuOf(b);
            && (Count(b) < TWO_TO_THE_31 ==> |m.candidates| <= m.numCandidates)
            && (PluginCompletes(m)
                <==> Count(b) < TWO_TO_THE_31 && forall k :: 0 <= k < Count(b) ==> Counted(b, BaseIndex(b), k))
  {
    TextCount(b, BaseIndex(b), 0, Count(b));
    var m := MenuOf(b);
    if |m.candidates| < m.numCandidates {
      assert !HasCandidate(m, |m.candidates|);
    }
  }

  /** One counted candidate whose only slot is zero: the list stays empty, the count does not. */
  lemma UnusableSlotIsStillCounted()
    ensures var b: seq<Byte> := [0, 0, 0, 0, 0, 0, 0, 0, 1, 0, 0, 0, 0, 0, 0, 0, 0, 0, 0, 0, 0, 0, 0, 0, 0, 0, 0, 0];
            |b| >= HEADER && MenuOf(b).candidates == [] && MenuOf(b).numCandidates == 1 && !PluginCompletes(MenuOf(b))
  {
    var b: seq<Byte> := [0, 0, 0, 0, 0, 0, 0, 0, 1, 0, 0, 0, 0, 0, 0, 0, 0, 0, 0, 0, 0, 0, 0, 0, 0, 0, 0, 0];
    assert Slots(b) == 1 && Slot(b, 0) == 0 && Count(b) == 1;
    assert !Counted(b, BaseIndex(b), 0);
    TextCount(b, BaseIndex(b), 0, Count(b));
    assert !HasCandidate(MenuOf(b), 0);
  }

  // ----- what a menu says -----

  /** A slot is read exactly if it lies in the table and its offset is inside the buffer and not zero. */
  lemma WhichSlotsAreRead(b: seq<Byte>, base: nat, k: nat)
    requires |b| >= 24
    ensures Counted(b, base, k)
            <==> 24 + 4 * (base + k) + 4 <= |b| && 0 < U32At(b, 24 + 4 * (base + k)) < |b|
  {
  }

  /** The word in slot `i`, if there is one. */
  ghost predicate SlotIs(b: seq<Byte>, i: nat, v: nat)
    requires |b| >= 24
  {
    24 + 4 * i + 4 <= |b| && U32At(b, 24 + 4 * i) == v
  }

  lemma {:induction false} FirstOffsetFrom(b: seq<Byte>, i: nat)
    requires |b| >= 24
    ensures var z := FirstOffset(b, i);
            || (&& z >= i && 24 + 4 * z + 4 <= |b| && 0 < U32At(b, 24 + 4 * z) < |b|
                && forall k: nat, v: nat :: i <= k < z && SlotIs(b, k, v) ==> v == 0 || v >= |b|)
            || (z == 0 && forall k: nat, v: nat :: i <= k && SlotIs(b, k, v) ==> v == 0 || v >= |b|)
    decreases Slots(b) - i
  {
    if i < Slots(b) && !IsOffset(b, Slot(b, i)) {
      FirstOffsetFrom(b, i + 1);
    }
  }

  /** The table begins at slot 0, unless that is zero and another slot is the first that points into the buffer. */
  lemma WhereTheTableBegins(b: seq<Byte>)
    requires |b| >= 24
    ensures forall v :: SlotIs(b, 0, v) && v != 0 ==> BaseIndex(b) == 0
    ensures BaseIndex(b) > 0 ==>
              var z := BaseIndex(b);
              && SlotIs(b, 0, 0) && 24 + 4 * z + 4 <= |b| && 0 < U32At(b, 24 + 4 * z) < |b|
              && forall k: nat, v: nat :: k < z && SlotIs(b, k, v) ==> v == 0 || v >= |b|
    ensures BaseIndex(b) == 0 && SlotIs(b, 0, 0) ==>
              forall k: nat, v: nat :: SlotIs(b, k, v) ==> v == 0 || v >= |b|
  {
    FirstOffsetFrom(b, 0);
  }

  /** `n` read as a signed word. */
  ghost predicate SignedWord(n: nat, v: int) {
    -0x8000_0000 <= v < 0x8000_0000 && (v == n || v == n - 0x1_0000_0000)
  }

  /** The header's words at 12, 16 and 20 become highlight, page number and page size; the count is that at 8. */
  lemma MenuSaysTheHeader(b: seq<Byte>)
    requires |b| >= 24
    ensures var m := MenuOf(b);
            && SignedWord(U32At(b, 8), m.numCandidates) && SignedWord(U32At(b, 12), m.highlighted)
            && (U32At(b, 20) == 0 ==> m.pageSize == 10)
            && (U32At(b, 20) > 0 ==> SignedWord(U32At(b, 20), m.pageSize))
            && (m.pageSize <= 0 ==> m.pageNo == 0)
            && (m.pageSize > 0 && U32At(b, 16) < 0x8000_0000 ==>
                  m.pageNo >= 0 && m.pageNo * m.pageSize <= U32At(b, 16) < (m.pageNo + 1) * m.pageSize)
            && (m.pageSize > 0 && U32At(b, 16) >= 0x8000_0000 ==>
                  m.pageNo <= 0
                  && (-m.pageNo) * m.pageSize <= 0x1_0000_0000 - U32At(b, 16) < (1 - m.pageNo) * m.pageSize)
  {
    PageNumber(ToI32(PageStart(b)), PageSizeOf(b));
  }

  lemma PageNumber(start: int, size: int)
    ensures size > 0 && start >= 0 ==>
              var n := TruncatedDiv(start, size); n >= 0 && n * size <= start < (n + 1) * size
    ensures size > 0 && start < 0 ==>
              var n := TruncatedDiv(start, size); n <= 0 && (-n) * size <= -start < (1 - n) * size
  {
    if size > 0 {
      var a := if start >= 0 then start else -start;
      assert a == (a / size) * size + a % size;
      assert (a / size + 1) * size == (a / size) * size + size;
    }
  }

  ghost predicate StoredAt(b: seq<Byte>, z: nat, k: nat, text: seq<Unit>)
    requires |b| >= 24 && z + k < Slots(b)
  {
    0 < Slot(b, z + k) < |b| && WideAt(b, Slot(b, z + k), text)
  }

  /** Zero slots, and behind them one slot for each text, pointing to where it is stored. */
  ghost predicate StoredBehind(b: seq<Byte>, z: nat, texts: seq<seq<Unit>>) {
    && |b| >= 24 && 24 + 4 * (z + |texts|) <= |b| && U32At(b, 8) == |texts|
    && (forall k :: 0 <= k < z ==> Slot(b, k) == 0)
    && (forall k :: 0 <= k < |texts| ==> StoredAt(b, z, k, texts[k]))
  }

  function Converted(texts: seq<seq<Unit>>): (r: seq<seq<Byte>>)
    ensures |r| == |texts| && forall i :: 0 <= i < |r| ==> r[i] == Text(texts[i])
  {
    seq(|texts|, i requires 0 <= i < |texts| => Text(texts[i]))
  }

  lemma NextConverted(texts: seq<seq<Unit>>, i: nat)
    requires i < |texts|
    ensures Converted(texts[i..]) == [Text(texts[i])] + Converted(texts[i + 1..])
  {
  }

  lemma {:induction false} TextsAreStored(b: seq<Byte>, z: nat, texts: seq<seq<Unit>>, i: nat)
    requires StoredBehind(b, z, texts) && i <= |texts|
    ensures Texts(b, z, i, |texts|) == Converted(texts[i..])
    decreases |texts| - i
  {
    if i < |texts| {
      assert StoredAt(b, z, i, texts[i]);
      WideReadBack(b, Slot(b, z + i), texts[i]);
      TextsAreStored(b, z, texts, i + 1);
      NextConverted(texts, i);
    }
  }

  /** The menu lists exactly the stored texts, converted, however many zero slots stand in front. */
  lemma MenuListsTheTexts(b: seq<Byte>, z: nat, texts: seq<seq<Unit>>)
    requires StoredBehind(b, z, texts) && texts != []
    ensures MenuOf(b).candidates == Converted(texts)
  {
    assert StoredAt(b, z, 0, texts[0]);
    if z > 0 {
      assert Slot(b, 0) == 0;
      ScanSkipsZeros(b, 0, z);
    }
    TextsAreStored(b, z, texts, 0);
    assert texts[0..] == texts;
  }

  // ----- shifted offset tables -----

  /** An ordinary list: the whole table fits, and every offset points behind it. */
  predicate WellFormed(b: seq<Byte>) {
    && HEADER <= |b| && 0 < Count(b) && HEADER + 4 * Count(b) <= |b|
    && forall i :: 0 <= i < Count(b) ==> HEADER + 4 * Count(b) <= Slot(b, i) < |b|
  }

  /** `c` is `b` with `z` zero slots in front of the offsets, and the offsets moved along with the strings. */
  ghost predicate ShiftedBy(b: seq<Byte>, c: seq<Byte>, z: nat)
    requires WellFormed(b)
  {
    var n := Count(b);
    && |c| == |b| + 4 * z
    && c[..HEADER] == b[..HEADER]
    && (forall k :: 0 <= k < z ==> Slot(c, k) == 0)
    && (forall i :: 0 <= i < n ==> Slot(c, z + i) == Slot(b, i) + 4 * z)
    && c[HEADER + 4 * (z + n)..] == b[HEADER + 4 * n..]
  }

  function ZeroBytes(n: nat): (r: seq<Byte>)
    ensures |r| == n
  {
    seq(n, _ => 0)
  }

  function MovedTable(b: seq<Byte>, z: nat, i: nat): (r: seq<Byte>)
    requires WellFormed(b) && i <= Count(b) && |b| + 4 * z < TWO_TO_THE_32
    ensures |r| == 4 * (Count(b) - i)
    decreases Count(b) - i
  {
    if i == Count(b) then [] else U32Bytes(Slot(b, i) + 4 * z) + MovedTable(b, z, i + 1)
  }

  /** What an IME that reserves `z` more slots writes for the list `b`. */
  function Shift(b: seq<Byte>, z: nat): seq<Byte>
    requires WellFormed(b) && |b| + 4 * z < TWO_TO_THE_32
  {
    b[..HEADER] + ZeroBytes(4 * z) + MovedTable(b, z, 0) + b[HEADER + 4 * Count(b)..]
  }

  lemma {:induction false} MovedEntry(b: seq<Byte>, z: nat, i: nat, k: nat)
    requires WellFormed(b) && i <= k < Count(b) && |b| + 4 * z < TWO_TO_THE_32
    ensures U32At(MovedTable(b, z, i), 4 * (k - i)) == Slot(b, k) + 4 * z
    decreases k - i
  {
    var t := MovedTable(b, z, i);
    if k == i {
      U32RoundTrip(Slot(b, i) + 4 * z);
      assert t[..4] == U32Bytes(Slot(b, i) + 4 * z);
      U32AtSlice(t, 0, 4);
    } else {
      MovedEntry(b, z, i + 1, k);
      var rest := MovedTable(b, z, i + 1);
      assert t[4..] == rest;
      U32InSlice(t, 4, |t|, 4 * (k - i - 1));
    }
  }

  lemma U32InSlice(b: seq<Byte>, p: nat, q: nat, at: nat)
    requires p + at + 4 <= q <= |b|
    ensures U32At(b, p + at) == U32At(b[p..q], at)
  {
    var s := b[p..q];
    assert s[at] == b[p + at] && s[at + 1] == b[p + at + 1] && s[at + 2] == b[p + at + 2] && s[at + 3] == b[p + at + 3];
  }

  lemma ShiftIsShifted(b: seq<Byte>, z: nat)
    requires WellFormed(b) && |b| + 4 * z < TWO_TO_THE_32
    ensures ShiftedBy(b, Shift(b, z), z)
  {
    var (n, c) := (Count(b), Shift(b, z));
    var table := HEADER + 4 * z;
    assert c[HEADER..table] == ZeroBytes(4 * z);
    assert c[table..table + 4 * n] == MovedTable(b, z, 0);
    forall k | 0 <= k < z
      ensures Slot(c, k) == 0
    {
      U32InSlice(c, HEADER, table, 4 * k);
    }
    forall i | 0 <= i < n
      ensures Slot(c, z + i) == Slot(b, i) + 4 * z
    {
      U32InSlice(c, table, table + 4 * n, 4 * i);
      MovedEntry(b, z, 0, i);
    }
  }

  lemma SameHeader(b: seq<Byte>, c: seq<Byte>)
    requires |b| >= HEADER && |c| >= HEADER && b[..HEADER] == c[..HEADER]
    ensures Count(b) == Count(c) && Selection(b) == Selection(c)
    ensures PageStart(b) == PageStart(c) && PageSize(b) == PageSize(c)
  {
    forall k | 0 <= k < HEADER
      ensures b[k] == c[k]
    {
      assert b[k] == b[..HEADER][k] && c[k] == c[..HEADER][k];
    }
  }

  lemma {:induction false} ScanSkipsZeros(c: seq<Byte>, i: nat, z: nat)
    requires |c| >= HEADER && i <= z < Slots(c) && IsOffset(c, Slot(c, z))
    requires forall k :: 0 <= k < z ==> Slot(c, k) == 0
    ensures FirstOffset(c, i) == z
    decreases z - i
  {
    if i < z {
      ScanSkipsZeros(c, i + 1, z);
    }
  }

  lemma {:induction false} ShiftedText(b: seq<Byte>, c: seq<Byte>, z: nat, i: nat)
    requires WellFormed(b) && ShiftedBy(b, c, z) && i < Count(b)
    ensures z + i < Slots(c) && Counted(c, z, i) && Counted(b, 0, i)
    ensures WideZ(c, Slot(c, z + i)) == WideZ(b, Slot(b, i))
  {
    var p := Slot(b, i);
    assert Slot(c, z + i) == p + 4 * z;
    var tail := HEADER + 4 * Count(b);
    assert b[p..] == b[tail..][p - tail..] == c[tail + 4 * z..][p - tail..] == c[p + 4 * z..];
    WideDependsOnSuffix(c, p + 4 * z, b, p);
  }

  lemma {:induction false} ShiftedTexts(b: seq<Byte>, c: seq<Byte>, z: nat, i: nat)
    requires WellFormed(b) && ShiftedBy(b, c, z) && i <= Count(b)
    ensures Texts(c, z, i, Count(b)) == Texts(b, 0, i, Count(b))
    decreases Count(b) - i
  {
    if i < Count(b) {
      ShiftedText(b, c, z, i);
      ShiftedTexts(b, c, z, i + 1);
    }
  }

  /** Any number of zero slots in front of the offsets is skipped: the menu is the same. */
  lemma ShiftedTableIsRecovered(b: seq<Byte>, z: nat)
    requires WellFormed(b) && |b| + 4 * z < TWO_TO_THE_32
    ensures |Shift(b, z)| >= HEADER && MenuOf(Shift(b, z)) == MenuOf(b)
  {
    ShiftIsShifted(b, z);
    ShiftedMenu(b, Shift(b, z), z);
  }

  lemma ShiftedMenu(b: seq<Byte>, c: seq<Byte>, z: nat)
    requires WellFormed(b) && ShiftedBy(b, c, z)
    ensures MenuOf(c) == MenuOf(b)
  {
    SameHeader(b, c);
    assert Slot(b, 0) != 0 && BaseIndex(b) == 0;
    assert Slot(c, z + 0) == Slot(b, 0) + 4 * z;
    ScanSkipsZeros(c, 0, z);
    assert BaseIndex(c) == z;
    ShiftedTexts(b, c, z, 0);
  }
}

/** `read_imm_candidates` of the v1 host's in-process backend. */
module PageReader {
  import opened Sequences
  import opened Unicode
  import opened ByteOrder
  import opened CandidateBuffers

  /** A candidate string before its lossy conversion, which maps only the empty string to the empty string. */
  datatype RawText = Wide(units: seq<Unit>) | Narrow(bytes: seq<Byte>) {
    predicate IsEmpty() {
      match this case Wide(u) => u == [] case Narrow(b) => b == []
    }
  }

  datatype Candidate = Candidate(index: nat, text: RawText)

  datatype Page = Page(candidates: seq<Candidate>, selectedIndex: nat, pageSize: nat)

  /** What the IMM answers for one list index: nothing, or a buffer that a second call may fail to fill. */
  datatype Source = NoList | List(bytes: seq<Byte>, ansi: bool, written: bool)

  function ReadRaw(b: seq<Byte>, p: nat, ansi: bool): RawText {
    if ansi then Narrow(NarrowZ(b, p)) else Wide(WideZ(b, p))
  }

  /** The nonempty texts of slots `i .. end`, as far as the buffer holds the slots. */
  function PageTexts(b: seq<Byte>, ansi: bool, i: nat, end: nat): seq<RawText>
    requires |b| >= HEADER
    decreases end - i
  {
    if i >= end || i >= Slots(b) then []
    else
      var text := ReadRaw(b, Slot(b, i), ansi);
      (if text.IsEmpty() then [] else [text]) + PageTexts(b, ansi, i + 1, end)
  }

  function NonEmpty(s: seq<RawText>): seq<RawText> {
    if s == [] then [] else (if s[0].IsEmpty() then [] else [s[0]]) + NonEmpty(s[1..])
  }

  function Indexed(s: seq<RawText>): (r: seq<Candidate>)
    ensures |r| == |s|
  {
    seq(|s|, i requires 0 <= i < |s| => Candidate(i, s[i]))
  }

  function WindowStart(b: seq<Byte>): nat
    requires |b| >= HEADER
  {
    Min(PageStart(b), Count(b))
  }

  function WindowSize(b: seq<Byte>, requested: nat): nat
    requires |b| >= HEADER
  {
    Min(if PageSize(b) == 0 then requested else PageSize(b), requested)
  }

  function WindowEnd(b: seq<Byte>, requested: nat): nat
    requires |b| >= HEADER
  {
    Min(WindowStart(b) + WindowSize(b, requested), Count(b))
  }

  function ParseList(b: seq<Byte>, ansi: bool, requested: nat): Page
    requires |b| >= HEADER
  {
    var (start, end) := (WindowStart(b), WindowEnd(b, requested));
    Page(Indexed(PageTexts(b, ansi, start, end)),
         if start <= Selection(b) < end then Selection(b) - start else 0,
         WindowSize(b, requested))
  }

  predicate Usable(s: Source)
    requires s.List? ==> |s.bytes| >= HEADER
  {
    s.List? && s.written && Count(s.bytes) > 0
  }

  /** The first list with a positive count decides. */
  function ParseFirst(lists: seq<Source>, requested: nat): Page
    requires forall i :: 0 <= i < |lists| && lists[i].List? ==> |lists[i].bytes| >= HEADER
  {
    if lists == [] then Page([], 0, 0)
    else if Usable(lists[0]) then ParseList(lists[0].bytes, lists[0].ansi, requested)
    else ParseFirst(lists[1..], requested)
  }

  lemma IndexedGrows(s: seq<RawText>, t: RawText)
    ensures Indexed(s + [t]) == Indexed(s) + [Candidate(|s|, t)]
  {
  }

  method ReadText(b: seq<Byte>, offset: nat, ansi: bool) returns (text: RawText)
    ensures text == ReadRaw(b, offset, ansi)
  {
    if ansi {
      text := Narrow(NarrowZ(b, offset));
    } else {
      var wide := ReadWideZ(b, offset);
      text := Wide(wide);
    }
  }

  lemma {:induction false} PageStep(texts: seq<RawText>, b: seq<Byte>, ansi: bool, i: nat, end: nat, text: RawText)
    requires |b| >= HEADER && i < end && i < Slots(b) && text == ReadRaw(b, Slot(b, i), ansi)
    ensures texts + PageTexts(b, ansi, i, end)
            == (if text.IsEmpty() then texts else texts + [text]) + PageTexts(b, ansi, i + 1, end)
  {
    Regroup(texts, if text.IsEmpty() then [] else [text], PageTexts(b, ansi, i + 1, end));
    assert texts + [] == texts;
  }

  method ReadWindow(b: seq<Byte>, ansi: bool, start: nat, end: nat) returns (out: seq<Candidate>)
    requires |b| >= HEADER && start <= end
    ensures out == Indexed(PageTexts(b, ansi, start, end))
  {
    out := [];
    ghost var texts: seq<RawText> := [];
    var i := start;
    assert [] + PageTexts(b, ansi, start, end) == PageTexts(b, ansi, start, end);
    while i < end
      invariant start <= i <= end
      invariant out == Indexed(texts)
      invariant texts + PageTexts(b, ansi, i, end) == PageTexts(b, ansi, start, end)
    {
      if HEADER + i * 4 + 4 > |b| {
        break;
      }
      var text := ReadText(b, Slot(b, i), ansi);
      PageStep(texts, b, ansi, i, end, text);
      i := i + 1;
      if text.IsEmpty() {
        continue;
      }
      IndexedGrows(texts, text);
      out := out + [Candidate(|out|, text)];
      texts := texts + [text];
    }
    assert texts == PageTexts(b, ansi, start, end);
  }

  /** The part of `read_imm_candidates` that handles one filled buffer. */
  method ReadPage(b: seq<Byte>, ansi: bool, requested: nat) returns (page: Page)
    requires |b| >= HEADER
    ensures page == ParseList(b, ansi, requested)
  {
    var base := if PageSize(b) == 0 then requested else PageSize(b);
    var start := Min(PageStart(b), Count(b));
    var size := Min(base, requested);
    var end := Min(start + size, Count(b));
    var out := ReadWindow(b, ansi, start, end);
    var selected := Selection(b);
    page := Page(out, if start <= selected < end then selected - start else 0, size);
  }

  /** A list is taken if it yields texts or claims any; an empty list claims none and yields none. */
  method ReadImmCandidates(lists: seq<Source>, maxCandidates: nat) returns (page: Page)
    requires forall i :: 0 <= i < |lists| && lists[i].List? ==> |lists[i].bytes| >= HEADER
    ensures page == ParseFirst(lists, if maxCandidates == 0 then 1 else maxCandidates)
  {
    var requested := if maxCandidates == 0 then 1 else maxCandidates;
    var n := 0;
    while n < |lists|
      invariant n <= |lists|
      invariant ParseFirst(lists[n..], requested) == ParseFirst(lists, requested)
    {
      var source := lists[n];
      n := n + 1;
      assert lists[n - 1..][1..] == lists[n..];
      if source.List? && source.written {
        var read := ReadPage(source.bytes, source.ansi, requested);
        if read.candidates != [] || Count(source.bytes) > 0 {
          return read;
        }
      }
    }
    page := Page([], 0, 0);
  }

  // ----- correctness of the window -----

  /** `b` is a list of exactly these texts: the table fits and text `i` is stored where slot `i` points. */
  ghost predicate Holds(b: seq<Byte>, ansi: bool, texts: seq<RawText>) {
    && |b| >= 24 && U32At(b, 8) == |texts| && 24 + 4 * |texts| <= |b|
    && forall i :: 0 <= i < |texts| ==>
         if ansi then texts[i].Narrow? && NarrowAt(b, Slot(b, i), texts[i].bytes)
         else texts[i].Wide? && WideAt(b, Slot(b, i), texts[i].units)
  }

  lemma {:induction false} NonEmptyConcat(s: seq<RawText>, t: seq<RawText>)
    ensures NonEmpty(s + t) == NonEmpty(s) + NonEmpty(t)
  {
    if s == [] {
      assert s + t == t;
    } else {
      assert (s + t)[1..] == s[1..] + t;
      NonEmptyConcat(s[1..], t);
    }
  }

  lemma {:induction false} NonEmptyCount(s: seq<RawText>)
    ensures |NonEmpty(s)| <= |s|
    ensures |NonEmpty(s)| == |s| <==> forall i :: 0 <= i < |s| ==> !s[i].IsEmpty()
    ensures |NonEmpty(s)| == |s| ==> NonEmpty(s) == s
  {
    if s != [] {
      NonEmptyCount(s[1..]);
      assert s == [s[0]] + s[1..];
      assert forall i :: 0 <= i < |s[1..]| ==> s[1..][i] == s[i + 1];
    }
  }

  lemma {:induction false} PageTextsAreStored(b: seq<Byte>, ansi: bool, texts: seq<RawText>, i: nat, end: nat)
    requires Holds(b, ansi, texts) && i <= end <= |texts|
    ensures PageTexts(b, ansi, i, end) == NonEmpty(texts[i..end])
    decreases end - i
  {
    if i < end {
      if ansi {
        NarrowReadBack(b, Slot(b, i), texts[i].bytes);
      } else {
        WideReadBack(b, Slot(b, i), texts[i].units);
      }
      PageTextsAreStored(b, ansi, texts, i + 1, end);
      assert texts[i..end] == [texts[i]] + texts[i + 1..end];
      NonEmptyConcat([texts[i]], texts[i + 1..end]);
      assert [texts[i]][1..] == [];
    }
  }

  /** The page as the header's words give it: from the page start, no longer than page size and request. */
  ghost predicate IsPage(b: seq<Byte>, n: nat, requested: nat, start: nat, size: nat, end: nat)
    requires |b| >= 24
  {
    && start == (if U32At(b, 16) < n then U32At(b, 16) else n)
    && size == (if U32At(b, 20) == 0 || U32At(b, 20) > requested then requested else U32At(b, 20))
    && end == (if start + size < n then start + size else n)
  }

  lemma PageNumbers(b: seq<Byte>, n: nat, requested: nat, start: nat, size: nat, end: nat)
    requires |b| >= 24 && U32At(b, 8) == n && IsPage(b, n, requested, start, size, end)
    ensures WindowStart(b) == start <= end == WindowEnd(b, requested) <= n
    ensures WindowSize(b, requested) == size && Selection(b) == U32At(b, 12)
  {
  }

  /**
   * The parser returns the nonempty texts of the current page, limited by the request, numbered from 0.
   * With no empty text on the page that is exactly the page. A selection on the page is reported by its distance
   * from the page start, any other as 0.
   */
  lemma PageIsTheWindow(b: seq<Byte>, ansi: bool, texts: seq<RawText>, requested: nat, start: nat, size: nat, end: nat)
    requires Holds(b, ansi, texts) && IsPage(b, |texts|, requested, start, size, end)
    ensures var page := ParseList(b, ansi, requested);
            && start <= end <= |texts| && page.pageSize == size
            && page.candidates == Indexed(NonEmpty(texts[start..end]))
            && ((forall i :: start <= i < end ==> !texts[i].IsEmpty()) ==>
                  page.candidates == Indexed(texts[start..end]))
            && page.selectedIndex == if start <= U32At(b, 12) < end then U32At(b, 12) - start else 0
  {
    PageNumbers(b, |texts|, requested, start, size, end);
    PageTextsAreStored(b, ansi, texts, start, end);
    NonEmptyCount(texts[start..end]);
    assert (forall i :: start <= i < end ==> !texts[i].IsEmpty()) ==>
        forall i :: 0 <= i < |texts[start..end]| ==> !texts[start..end][i].IsEmpty();
  }

  /**
   * A nonempty selected text on the page is listed, at the number of nonempty texts before it. So the reported
   * index names it exactly when no text between the page start and the selection is empty.
   */
  lemma SelectedIndexIff(b: seq<Byte>, ansi: bool, texts: seq<RawText>, requested: nat, start: nat, size: nat, end: nat)
    requires Holds(b, ansi, texts) && IsPage(b, |texts|, requested, start, size, end)
    requires start <= U32At(b, 12) < end && !texts[U32At(b, 12)].IsEmpty()
    ensures var (page, sel) := (ParseList(b, ansi, requested), U32At(b, 12));
            var rank := |NonEmpty(texts[start..sel])|;
            && rank < |page.candidates| && page.candidates[rank] == Candidate(rank, texts[sel])
            && (page.selectedIndex == rank <==> forall i :: start <= i < sel ==> !texts[i].IsEmpty())
  {
    PageNumbers(b, |texts|, requested, start, size, end);
    PageTextsAreStored(b, ansi, texts, start, end);
    RankInWindow(texts, start, U32At(b, 12), end);
  }

  /** What is empty is left out, in order: the filter that the page is measured against. */
  lemma {:induction false} NonEmptyFilters(s: seq<RawText>, t: RawText)
    ensures NonEmpty(s + [t]) == NonEmpty(s) + (if t in {Wide([]), Narrow([])} then [] else [t])
  {
    NonEmptyConcat(s, [t]);
    assert [t][1..] == [];
  }

  /** The first list that was filled and claims a candidate is taken. */
  lemma {:induction false} FirstClaimingListDecides(lists: seq<Source>, requested: nat, k: nat)
    requires forall i :: 0 <= i < |lists| && lists[i].List? ==> |lists[i].bytes| >= 24
    requires k <= |lists|
    requires forall i :: 0 <= i < k && lists[i].List? && lists[i].written ==> U32At(lists[i].bytes, 8) == 0
    requires k < |lists| ==> lists[k].List? && lists[k].written && U32At(lists[k].bytes, 8) > 0
    ensures ParseFirst(lists, requested)
            == if k < |lists| then ParseList(lists[k].bytes, lists[k].ansi, requested) else Page([], 0, 0)
    decreases k
  {
    if k > 0 {
      assert !Usable(lists[0]);
      FirstClaimingListDecides(lists[1..], requested, k - 1);
    }
  }

  lemma SecondOfTwo(b: seq<Byte>, first: RawText, second: RawText)
    requires Holds(b, false, [first, second]) && !first.IsEmpty() && !second.IsEmpty()
    requires U32At(b, 12) == 1 && U32At(b, 16) == 1 && U32At(b, 20) == 1
    ensures ParseList(b, false, 9) == Page([Candidate(0, second)], 0, 1)
  {
    var texts := [first, second];
    PageIsTheWindow(b, false, texts, 9, 1, 1, 2);
    assert texts[1..2] == [second];
  }

  /** Texts "a" and "b" on pages of one, with the second page shown and selected: the page is "b". */
  lemma SecondPageIsShown()
    ensures var b: seq<Byte> := [0, 0, 0, 0, 0, 0, 0, 0, 2, 0, 0, 0, 1, 0, 0, 0, 1, 0, 0, 0, 1, 0, 0, 0,
                                 32, 0, 0, 0, 36, 0, 0, 0, 97, 0, 0, 0, 98, 0, 0, 0];
            && Holds(b, false, [Wide([97]), Wide([98])])
            && ParseList(b, false, 9) == Page([Candidate(0, Wide([98]))], 0, 1)
  {
    var b: seq<Byte> := [0, 0, 0, 0, 0, 0, 0, 0, 2, 0, 0, 0, 1, 0, 0, 0, 1, 0, 0, 0, 1, 0, 0, 0,
                         32, 0, 0, 0, 36, 0, 0, 0, 97, 0, 0, 0, 98, 0, 0, 0];
    TwoLetters(b, 97, 98);
    SecondOfTwo(b, Wide([97]), Wide([98]));
  }

  lemma TwoLetters(b: seq<Byte>, one: Unit, other: Unit)
    requires |b| == 40 && Count(b) == 2 && Slot(b, 0) == 32 && Slot(b, 1) == 36
    requires U16At(b, 32) == one != 0 && U16At(b, 34) == 0 && U16At(b, 36) == other != 0 && U16At(b, 38) == 0
    ensures Holds(b, false, [Wide([one]), Wide([other])])
  {
    assert WideAt(b, 32, [one]) && WideAt(b, 36, [other]);
  }

  lemma TwoTexts(b: seq<Byte>, unit: Unit)
    requires |b| == 38 && Count(b) == 2 && Slot(b, 0) == 32 && Slot(b, 1) == 34
    requires U16At(b, 32) == 0 && U16At(b, 34) == unit != 0 && U16At(b, 36) == 0
    ensures Holds(b, false, [Wide([]), Wide([unit])])
  {
    assert WideAt(b, 32, []) && WideAt(b, 34, [unit]);
  }

  lemma EmptyTextShiftsNumbers(b: seq<Byte>, first: RawText, second: RawText)
    requires Holds(b, false, [first, second]) && first.IsEmpty() && !second.IsEmpty()
    requires U32At(b, 12) == 1 && U32At(b, 16) == 0 && U32At(b, 20) == 0
    ensures ParseList(b, false, 9).candidates == [Candidate(0, second)] && ParseList(b, false, 9).selectedIndex == 1
  {
    var texts := [first, second];
    PageIsTheWindow(b, false, texts, 9, 0, 9, 2);
    assert texts[0..2] == texts && texts[1..] == [second] && [second][1..] == [];
    assert NonEmpty([second]) == [second];
  }

  /** A list of an empty text and "a", with "a" selected: it is listed as number 0 and reported as number 1. */
  lemma EmptyTextMisplacesSelection()
    ensures var b: seq<Byte> := [0, 0, 0, 0, 0, 0, 0, 0, 2, 0, 0, 0, 1, 0, 0, 0, 0, 0, 0, 0, 0, 0, 0, 0,
                                 32, 0, 0, 0, 34, 0, 0, 0, 0, 0, 97, 0, 0, 0];
            && Holds(b, false, [Wide([]), Wide([97])])
            && ParseList(b, false, 9).candidates == [Candidate(0, Wide([97]))]
            && ParseList(b, false, 9).selectedIndex == 1
  {
    var b: seq<Byte> := [0, 0, 0, 0, 0, 0, 0, 0, 2, 0, 0, 0, 1, 0, 0, 0, 0, 0, 0, 0, 0, 0, 0, 0,
                         32, 0, 0, 0, 34, 0, 0, 0, 0, 0, 97, 0, 0, 0];
    TwoTexts(b, 97);
    EmptyTextShiftsNumbers(b, Wide([]), Wide([97]));
  }

  lemma RankInWindow(texts: seq<RawText>, start: nat, sel: nat, end: nat)
    requires start <= sel < end <= |texts| && !texts[sel].IsEmpty()
    ensures var rank := |NonEmpty(texts[start..sel])|;
            && rank < |NonEmpty(texts[start..end])| && NonEmpty(texts[start..end])[rank] == texts[sel]
            && rank <= sel - start
            && (rank == sel - start <==> forall i :: start <= i < sel ==> !texts[i].IsEmpty())
  {
    var before, after := texts[start..sel], texts[sel + 1..end];
    assert texts[start..end] == before + ([texts[sel]] + after);
    NonEmptyConcat(before, [texts[sel]] + after);
    NonEmptyConcat([texts[sel]], after);
    assert NonEmpty([texts[sel]]) == [texts[sel]] by {
      assert [texts[sel]][1..] == [];
    }
    NonEmptyCount(before);
    assert forall i :: start <= i < sel ==> texts[i] == before[i - start];
  }
}
