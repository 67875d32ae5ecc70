/** Composition string, cursor and selection as the v2 host reports them. */
module Composition {
  import opened Wrappers
  import opened Unicode

  const ATTR_TARGET_CONVERTED: Byte := 1
  const ATTR_TARGET_NOTCONVERTED: Byte := 3

  datatype CompositionData = CompositionData(text: seq<Byte>, cursorPos: nat, selStart: nat, selEnd: nat)

  predicate IsTarget(attr: Byte) {
    attr == ATTR_TARGET_CONVERTED || attr == ATTR_TARGET_NOTCONVERTED
  }

  /** `[start, end)` is the smallest range around all target attributes. */
  ghost predicate TargetRange(attrs: seq<Byte>, start: int, end: int) {
    && 0 <= start < end <= |attrs|
    && attrs[start] in {1, 3} && attrs[end - 1] in {1, 3}
    && forall i :: 0 <= i < |attrs| && attrs[i] in {1, 3} ==> start <= i < end
  }

  method ScanAttributes(attrs: seq<Byte>) returns (start: int, end: int)
    ensures start == -1 ==> forall i :: 0 <= i < |attrs| ==> attrs[i] !in {1, 3}
    ensures start != -1 ==> TargetRange(attrs, start, end)
  {
    start, end := -1, -1;
    for i := 0 to |attrs|
      invariant start == -1 ==> forall k :: 0 <= k < i ==> !IsTarget(attrs[k])
      invariant start != -1 ==> end <= i && TargetRange(attrs[..i], start, end)
    {
      if IsTarget(attrs[i]) {
        if start == -1 {
          start := i;
        }
        end := i + 1;
      }
    }
    assert attrs[..|attrs|] == attrs;
  }

  /**
   * `units` is the buffer the IME filled, `cursor` its cursor position (negative when unknown) and `attrs` its
   * attribute bytes, if any. Cursor and selection always lie inside the text, and the selection is empty
   * exactly when the first target attribute lies beyond the text (or the text is empty).
   */
  method GetComposition(units: seq<Unit>, cursor: int, attrs: Option<seq<Byte>>) returns (data: CompositionData)
    ensures data.text == Text(units)
    ensures data.cursorPos == Offset(units, if cursor < 0 then |units| else cursor)
    ensures 0 <= data.cursorPos <= |data.text|
    ensures 0 <= data.selStart <= data.selEnd <= |data.text|
    ensures (attrs.None? || forall i :: 0 <= i < |attrs.value| ==> attrs.value[i] !in {1, 3})
            ==> data.selStart == 0 && data.selEnd == |data.text|
    ensures forall start, end ::
              attrs.Some? && TargetRange(attrs.value, start, end) ==>
                && data.selStart == Offset(units, start) && data.selEnd == Offset(units, end)
                && (data.selStart < data.selEnd <==> start < |units|)
  {
    var u16Cursor := cursor;
    if cursor < 0 {
      u16Cursor := |units|;
    }
    var selStart, selEnd := 0, |units|;
    if attrs.Some? {
      var start, end := ScanAttributes(attrs.value);
      if start != -1 {
        selStart, selEnd := start, end;
      }
    }
    OffsetInRange(units, u16Cursor);
    OffsetInRange(units, selEnd);
    if selStart < |units| && selStart < selEnd {
      OffsetIncreases(units, selStart, if selEnd < |units| then selEnd else |units|);
    }
    assert units[..0] == [];
    data := CompositionData(Text(units), Offset(units, u16Cursor), Offset(units, selStart), Offset(units, selEnd));
  }
}
