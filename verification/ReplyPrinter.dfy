/** The printing loops of the command host, and what its fixed reply buffer does to the line. */
module ReplyPrinter {
  import opened Wrappers
  import opened Sequences
  import opened Lines
  import opened TextSearch
  import opened WorkerIds
  import opened CandReply
  import opened LineReaders
  import opened RustReaders
  import Frames

  const PROBES := 4
  const SHOWN := 8
  const LONG := 191  // the longest text a text buffer holds

  /** The most a buffer of `size` characters keeps of a text, one being for the terminator. */
  function Cut(text: string, size: nat): string
    requires size > 0
  {
    if |text| < size then text else text[..size - 1]
  }

  /** The buffer holds the first `size - 1` characters of everything appended so far. */
  ghost predicate Holds(dst: array<char>, off: nat, text: string)
    reads dst
  {
    dst.Length > 0 && off < dst.Length && dst[..off] == Cut(text, dst.Length)
  }

  /** Cutting after every append or once at the end comes to the same. */
  lemma CutConcat(a: string, b: string, size: nat)
    requires size > 0
    ensures Cut(Cut(a, size) + b, size) == Cut(a + b, size)
  {
    if |a| >= size {
      assert (a[..size - 1] + b)[..size - 1] == a[..size - 1] == (a + b)[..size - 1];
    }
  }

  /** `vsnprintf` into the rest of the buffer. */
  method Appendf(dst: array<char>, off: nat, text: string) returns (newOff: nat)
    modifies dst
    ensures off >= dst.Length ==> newOff == off && dst[..] == old(dst[..])
    ensures off < dst.Length ==>
              && newOff < dst.Length && dst[newOff] == '\0'
              && dst[..newOff] == Cut(old(dst[..off]) + text, dst.Length)
              && dst[newOff + 1..] == old(dst[newOff + 1..])
  {
    if off >= dst.Length {
      return off;
    }
    var room := dst.Length - off;
    var n := if |text| < room then |text| else room - 1;
    forall i | 0 <= i < n {
      dst[off + i] := text[i];
    }
    dst[off + n] := '\0';
    assert dst[..off + n] == old(dst[..off]) + text[..n];
    if |text| >= room {
      assert (old(dst[..off]) + text)[..dst.Length - 1] == old(dst[..off]) + text[..n];
      return dst.Length - 1;
    }
    return off + |text|;
  }

  /** One more piece of the line: what was lost stays lost, what fits is kept. */
  method Put(out: array<char>, off: nat, ghost soFar: string, text: string) returns (newOff: nat)
    requires Holds(out, off, soFar)
    modifies out
    ensures Holds(out, newOff, soFar + text) && out[newOff] == '\0'
  {
    CutConcat(soFar, text, out.Length);
    newOff := Appendf(out, off, text);
  }

  /** In place, up to the terminator. */
  method SanitizeToken(s: array<char>)
    requires '\0' in s[..]
    modifies s
    ensures var n := IndexOf(old(s[..]), '\0');
            s[..] == Sanitize(old(s[..n])) + old(s[n..])
  {
    ghost var was := s[..];
    ghost var n := IndexOf(was, '\0');
    FirstIndex(was, '\0');
    var i := 0;
    while s[i] != '\0'
      invariant i <= n < s.Length == |was|
      invariant forall k :: i <= k < s.Length ==> s[k] == was[k]
      invariant forall k :: 0 <= k < i ==> s[k] == Sanitize(was[..n])[k]
      decreases n - i
    {
      if s[i] == '|' || s[i] == '\r' || s[i] == '\n' || s[i] == ';' {
        s[i] := ' ';
      }
      i := i + 1;
    }
    assert s[..n] == Sanitize(was[..n]) && s[n..] == was[n..];
    assert s[..] == s[..n] + s[n..];
  }

  // ----- which lists are printed -----

  /** Large lists without pages behind the first are taken for internal ones. */
  predicate Auxiliary(idx: nat, l: CandList) {
    idx > 0 && l.pageSize == 0 && l.count >= 64
  }

  predicate WellProbed(probes: seq<Option<CandList>>) {
    forall k :: 0 <= k < |probes| && probes[k].Some? ==>
                  probes[k].value.idx == k
                  && |probes[k].value.items| == if probes[k].value.count < 8 then probes[k].value.count else 8
  }

  predicate Printable(probes: seq<Option<CandList>>, k: nat)
    requires k < |probes|
  {
    probes[k].Some? && !Auxiliary(k, probes[k].value)
  }

  function Printed(probes: seq<Option<CandList>>, n: nat): seq<CandList>
    requires n <= |probes|
  {
    if n == 0 then []
    else Printed(probes, n - 1) + (if Printable(probes, n - 1) then [probes[n - 1].value] else [])
  }

  ghost predicate InOrder(p: seq<CandList>, n: nat) {
    && (forall k :: 0 <= k < |p| ==> p[k].idx < n)
    && (forall j, k :: 0 <= j < k < |p| ==> p[j].idx < p[k].idx)
  }

  ghost predicate ItemCounts(p: seq<CandList>) {
    forall k :: 0 <= k < |p| ==> |p[k].items| == if p[k].count < SHOWN then p[k].count else SHOWN
  }

  lemma {:induction false} PrintedInOrder(probes: seq<Option<CandList>>, n: nat)
    requires n <= |probes| && WellProbed(probes)
    ensures InOrder(Printed(probes, n), n) && ItemCounts(Printed(probes, n))
  {
    if n > 0 {
      PrintedInOrder(probes, n - 1);
    }
  }

  /** The printed lists come in increasing order, and the first of them is list #0 exactly when that was fetched. */
  lemma {:induction false} PrintedLists(probes: seq<Option<CandList>>, n: nat)
    requires n <= |probes| && WellProbed(probes)
    ensures InOrder(Printed(probes, n), n) && ItemCounts(Printed(probes, n))
    ensures Printed(probes, n) != [] && Printed(probes, n)[0].idx == 0 <==> n > 0 && probes[0].Some?
  {
    PrintedInOrder(probes, n);
    if n > 1 {
      PrintedLists(probes, n - 1);
    } else if n == 1 {
      assert Printed(probes, 0) == [];
    }
  }

  // ----- the printing loops -----

  function Prefix(r: Snapshot): string {
    Head(r) + "[" + Sanitize(r.comp) + "] read=[" + Sanitize(r.read) + "] data="
  }

  function ListText(idx: nat, l: CandList): string {
    "#" + Decimal(idx) + "{" + Behind(l)
  }

  /** The line up to the first `n` lists, behind `x`. */
  function Listed(x: string, lists: seq<CandList>, n: nat): string
    requires n <= |lists|
  {
    if n == 0 then x
    else Listed(x, lists, n - 1) + Bar(n - 1) + ListText(lists[n - 1].idx, lists[n - 1])
  }

  lemma {:induction false} ListedStep(x: string, blocks: seq<(nat, string)>, k: nat)
    requires k < |blocks|
    ensures x + PrintBlocks(blocks, k)
            == x + Bar(k) + ("#" + Decimal(blocks[k].0) + "{" + blocks[k].1) + PrintBlocks(blocks, k + 1)
  {
    BlockStep(blocks, k, x);
    var (y, number, block) := (x + Bar(k), Decimal(blocks[k].0), blocks[k].1);
    Chain(y, "#", number, "{", block);
    Regroup(y + "#" + number + "{", block, PrintBlocks(blocks, k + 1));
  }

  /** The printing order and the nesting of the specification come to the same line. */
  lemma {:induction false} ListedIsPrinted(x: string, lists: seq<CandList>, n: nat)
    requires n <= |lists|
    ensures Listed(x, lists, n) + PrintBlocks(Blocks(lists), n) == x + PrintBlocks(Blocks(lists), 0)
  {
    if n > 0 {
      ListedIsPrinted(x, lists, n - 1);
      ListedStep(Listed(x, lists, n - 1), Blocks(lists), n - 1);
    }
  }

  lemma {:induction false} ListedPrefix(x: string, a: seq<CandList>, b: seq<CandList>, n: nat)
    requires n <= |a|
    ensures Listed(x, a + b, n) == Listed(x, a, n)
  {
    if n > 0 {
      ListedPrefix(x, a, b, n - 1);
    }
  }

  lemma ListedMore(x: string, a: seq<CandList>, l: CandList)
    ensures Listed(x, a + [l], |a| + 1) == Listed(x, a, |a|) + Bar(|a|) + ListText(l.idx, l)
  {
    ListedPrefix(x, a, [l], |a|);
  }

  function WithItems(x: string, items: seq<Option<string>>, n: nat): string
    requires n <= |items|
  {
    x + PrintItems(items, n)
  }

  lemma OneItemMore(x: string, items: seq<Option<string>>, n: nat)
    requires n < |items|
    ensures WithItems(x, items, n + 1) == WithItems(x, items, n) + PrintItem(items[n], n)
  {
    Regroup(x, PrintItems(items, n), PrintItem(items[n], n));
  }

  lemma Pieces(x: string, bar: string, text: string)
    ensures x + bar + text == x + (bar + text) && x + "" == x
  {
  }

  method PutItem(out: array<char>, off0: nat, ghost soFar: string, item: Option<string>, i: nat) returns (off: nat)
    requires Holds(out, off0, soFar)
    modifies out
    ensures Holds(out, off, soFar + PrintItem(item, i))
  {
    off := off0;
    Pieces(soFar, "", "");
    if item.Some? {
      Pieces(soFar, if i > 0 then "|" else "", Sanitize(item.value));
      if i > 0 {
        off := Put(out, off, soFar, "|");
      }
      off := Put(out, off, soFar + (if i > 0 then "|" else ""), Sanitize(item.value));
    }
  }

  method PutItems(out: array<char>, off0: nat, ghost soFar: string, l: CandList) returns (off: nat)
    requires Holds(out, off0, soFar)
    requires |l.items| == if l.count < SHOWN then l.count else SHOWN
    modifies out
    ensures Holds(out, off, WithItems(soFar, l.items, |l.items|))
  {
    var i := 0;
    off := off0;
    assert WithItems(soFar, l.items, 0) == soFar;
    while i < l.count && i < SHOWN
      invariant i <= |l.items|
      invariant Holds(out, off, WithItems(soFar, l.items, i))
    {
      ghost var before := WithItems(soFar, l.items, i);
      OneItemMore(soFar, l.items, i);
      off := PutItem(out, off, before, l.items[i], i);
      i := i + 1;
    }
  }

  function Opening(idx: nat, fields: string): string {
    "#" + Decimal(idx) + "{" + fields + "["
  }

  lemma ListTextPieces(x: string, opening: string, items: string, more: string)
    ensures x + opening + items + more + "]}" == x + (opening + (items + more) + "]}")
  {
  }

  lemma ListTextIs(idx: nat, l: CandList)
    ensures ListText(idx, l) == Opening(idx, Join(ListFields(l), ' ')) + ItemText(l) + "]}"
  {
    OpeningJoin(idx, Join(ListFields(l), ' '), ItemText(l));
  }

  lemma OpeningJoin(idx: nat, fields: string, items: string)
    ensures "#" + Decimal(idx) + "{" + (fields + "[" + items + "]}") == Opening(idx, fields) + items + "]}"
  {
  }

  function More(l: CandList): string {
    if l.count > SHOWN then "|..." else ""
  }

  /** The body of the list loop, for one fetched list. */
  method PutList(out: array<char>, off0: nat, ghost soFar: string, idx: nat, l: CandList) returns (off: nat)
    requires Holds(out, off0, soFar)
    requires |l.items| == if l.count < SHOWN then l.count else SHOWN
    modifies out
    ensures Holds(out, off, soFar + ListText(idx, l))
  {
    var opening := Opening(idx, Join(ListFields(l), ' '));
    ghost var x := soFar + opening;
    off := Put(out, off0, soFar, opening);
    off := PutItems(out, off, x, l);
    ghost var items := PrintItems(l.items, |l.items|);
    Pieces(x + items, "", "");
    if l.count > SHOWN {
      off := Put(out, off, x + items, "|...");
    }
    off := Put(out, off, x + items + More(l), "]}");
    ListTextPieces(soFar, opening, items, More(l));
    ListTextIs(idx, l);
  }

  /** The line once `n` lists have been probed. */
  function Probed(x: string, probes: seq<Option<CandList>>, n: nat): string
    requires n <= |probes|
  {
    Listed(x, Printed(probes, n), |Printed(probes, n)|)
  }

  lemma ProbedStep(x: string, probes: seq<Option<CandList>>, n: nat)
    requires n < |probes| && WellProbed(probes)
    ensures Printable(probes, n) ==>
              && Printed(probes, n + 1) != []
              && Probed(x, probes, n + 1)
                 == Probed(x, probes, n) + Bar(|Printed(probes, n)|) + ListText(n, probes[n].value)
    ensures !Printable(probes, n) ==> Printed(probes, n + 1) == Printed(probes, n)
    ensures Printed(probes, 0) == []
  {
    if Printable(probes, n) {
      ListedMore(x, Printed(probes, n), probes[n].value);
      assert Printed(probes, n + 1) == Printed(probes, n) + [probes[n].value];
    }
  }

  /** The list loop, from the printed prefix on. */
  method PutLists(out: array<char>, off0: nat, ghost x: string, probes: seq<Option<CandList>>)
    returns (off: nat, anyList: bool)
    requires Holds(out, off0, x) && WellProbed(probes)
    modifies out
    ensures anyList == (Printed(probes, |probes|) != [])
    ensures Holds(out, off, Probed(x, probes, |probes|))
  {
    var idx := 0;
    off, anyList := off0, false;
    assert Probed(x, probes, 0) == x;
    while idx < |probes|
      invariant idx <= |probes|
      invariant anyList == (Printed(probes, idx) != [])
      invariant Holds(out, off, Probed(x, probes, idx))
    {
      ProbedStep(x, probes, idx);
      if probes[idx].Some? && !Auxiliary(idx, probes[idx].value) {
        ghost var text := Probed(x, probes, idx);
        Pieces(text, "", "");
        if !anyList {
          anyList := true;
        } else {
          off := Put(out, off, text, ";");
        }
        off := PutList(out, off, text + Bar(|Printed(probes, idx)|), idx, probes[idx].value);
      }
      idx := idx + 1;
    }
  }

  /** The line behind its printed prefix `x`. */
  function Line(x: string, lists: seq<CandList>): string {
    (if lists == [] then x + "none" else Listed(x, lists, |lists|)) + "\n"
  }

  lemma ReplyIsLine(r: Snapshot)
    ensures Reply(r) == Line(Prefix(r), r.lists)
  {
    var x := Prefix(r);
    ListedIsPrinted(x, r.lists, |r.lists|);
    Pieces(Listed(x, r.lists, |r.lists|), "", "");
  }

  method PutLine(out: array<char>, x: string, probes: seq<Option<CandList>>) returns (off: nat)
    requires out.Length > 0 && WellProbed(probes)
    modifies out
    ensures Holds(out, off, Line(x, Printed(probes, |probes|))) && out[off] == '\0'
  {
    Pieces("", "", x);
    off := Put(out, 0, "", x);
    var anyList;
    off, anyList := PutLists(out, off, x, probes);
    ghost var text := Probed(x, probes, |probes|);
    if !anyList {
      text := x + "none";
      off := Put(out, off, x, "none");
    }
    off := Put(out, off, text, "\n");
  }

  /** How many lists are probed when the IME claims `listCount`. */
  function ProbeCount(listCount: nat): nat {
    if listCount == 0 || listCount > PROBES then PROBES else listCount
  }

  /** What the IME answered to the probes of a snapshot. */
  ghost predicate ProbedFor(r: Snapshot, probes: seq<Option<CandList>>) {
    |probes| == ProbeCount(r.listCount) && WellProbed(probes) && r.lists == Printed(probes, |probes|)
  }

  /** Without any list and bytes the reply has a form of its own. */
  function FullReply(r: Snapshot): string {
    if r.listCount == 0 && r.totalSize == 0 then QuietBody(r) + "\n" else Reply(r)
  }

  /** The buffer ends up with the whole reply, or with as much of its front as fits. */
  method BuildCandidateReply(out: array<char>, r: Snapshot, probes: seq<Option<CandList>>) returns (off: nat)
    requires out.Length > 0 && ProbedFor(r, probes)
    modifies out
    ensures Holds(out, off, FullReply(r)) && out[off] == '\0'
  {
    if r.listCount == 0 && r.totalSize == 0 {
      off := PutAll(out, FullReply(r));
    } else {
      ReplyIsLine(r);
      off := PutLine(out, Prefix(r), probes);
    }
  }

  /** `snprintf` into an empty buffer. */
  method PutAll(out: array<char>, text: string) returns (off: nat)
    requires out.Length > 0
    modifies out
    ensures Holds(out, off, text) && out[off] == '\0'
  {
    Pieces("", "", text);
    off := Put(out, 0, "", text);
  }

  // ----- the reply as a line -----

  lemma {:induction false} BlocksLackChar(blocks: seq<(nat, string)>, k: nat, c: char)
    requires k <= |blocks| && c !in {';', '#', '{'} && !('0' <= c <= '9')
    requires forall i :: k <= i < |blocks| ==> c !in blocks[i].1
    ensures c !in PrintBlocks(blocks, k)
    decreases |blocks| - k
  {
    if k < |blocks| {
      BlocksLackChar(blocks, k + 1, c);
    }
  }

  lemma {:induction false} ItemsLackBreak(items: seq<Option<string>>, n: nat, c: char)
    requires n <= |items| && c in {'\n', '\r'}
    ensures c !in PrintItems(items, n)
  {
    if n > 0 {
      ItemsLackBreak(items, n - 1, c);
      if items[n - 1].Some? {
        Sanitized(items[n - 1].value);
      }
    }
  }

  lemma BehindLacksBreak(l: CandList, c: char)
    requires c in {'\n', '\r'}
    ensures c !in Behind(l)
  {
    ListFieldFacts(l);
    ItemsLackBreak(l.items, |l.items|, c);
  }

  lemma PrefixLacksBreak(r: Snapshot, c: char)
    requires c in {'\n', '\r'}
    ensures c !in Prefix(r)
  {
    HeadFacts(r);
    Sanitized(r.comp);
    Sanitized(r.read);
  }

  lemma BodyLacksBreak(r: Snapshot, c: char)
    requires c in {'\n', '\r'}
    ensures c !in Body(r)
  {
    PrefixLacksBreak(r, c);
    var blocks := Blocks(r.lists);
    forall i | 0 <= i < |blocks|
      ensures c !in blocks[i].1
    {
      BehindLacksBreak(r.lists[i], c);
    }
    BlocksLackChar(blocks, 0, c);
    assert Body(r) == Prefix(r) + (if r.lists == [] then "none" else PrintBlocks(blocks, 0));
  }

  /**
   * What a reader makes of the buffer, in front of whatever the host sends next: the reply is a line of its own
   * exactly when it fits the buffer; a cut reply has lost its line end and runs into the next one.
   */
  lemma {:induction false} ReplyIsALineIff(r: Snapshot, size: nat, next: string)
    requires size > 0
    ensures |Reply(r)| < size ==> Complete(Cut(Reply(r), size) + next) == [Body(r)] + Complete(next)
    ensures |Reply(r)| >= size ==>
              var cut := Cut(Reply(r), size);
              '\n' !in cut && Complete(cut) == [] && Residue(cut) == Body(r)[..size - 1]
  {
    BodyLacksBreak(r, '\n');
    LineOfItsOwn(Body(r), next);
    if |Reply(r)| >= size {
      assert Cut(Reply(r), size) == Body(r)[..size - 1];
    }
  }

  lemma {:induction false} LineOfItsOwn(body: string, next: string)
    requires '\n' !in body
    ensures Complete(body + "\n" + next) == [body] + Complete(next)
  {
    var line := body + "\n";
    IndexOfPrefix(body, "\n", '\n');
    assert IndexOf("\n", '\n') == 0;
    FirstLine(line, next);
    assert line[..|body|] == body && line[|body| + 1..] + next == next;
  }

  /** A cut reply and the front of whatever comes next are one line. */
  lemma {:induction false} CutReplyRunsOn(r: Snapshot, size: nat, next: string)
    requires 0 < size <= |Reply(r)| && '\n' in next
    ensures var n := IndexOf(next, '\n');
            Complete(Cut(Reply(r), size) + next) == [Body(r)[..size - 1] + next[..n]] + Complete(next[n + 1..])
  {
    ReplyIsALineIff(r, size, next);
    assert Cut(Reply(r), size) == Body(r)[..size - 1];
    RunsOn(Cut(Reply(r), size), next);
  }

  lemma {:induction false} RunsOn(cut: string, next: string)
    requires '\n' !in cut && '\n' in next
    ensures var n := IndexOf(next, '\n');
            Complete(cut + next) == [cut + next[..n]] + Complete(next[n + 1..])
  {
    var n := IndexOf(next, '\n');
    IndexOfPrefix(cut, next, '\n');
    SliceAcross(cut, next, n);
    LineThen(cut + next, |cut| + n, cut + next[..n], next[n + 1..]);
  }

  lemma {:induction false} LineThen(s: string, n: nat, line: string, rest: string)
    requires n < |s| && n == IndexOf(s, '\n') && s[..n] == line && s[n + 1..] == rest
    ensures Complete(s) == [line] + Complete(rest)
  {
  }

  lemma SliceAcross(a: string, b: string, n: nat)
    requires n < |b|
    ensures (a + b)[..|a| + n] == a + b[..n] && (a + b)[|a| + n + 1..] == b[n + 1..]
  {
  }

  /** Dropping a trailing carriage return leaves a reply alone. */
  lemma BodyIsNotStripped(r: Snapshot)
    ensures StripCr(Body(r)) == Body(r)
  {
    BodyLacksBreak(r, '\r');
  }

  /**
   * From the buffer to the C++ client: a reply that fits is read as a line and gives the parser composition, reading
   * and, when the host fetched list #0, that list's items.
   */
  lemma BufferToCpp(r: Snapshot, probes: seq<Option<CandList>>, size: nat, next: string)
    requires Extractable(r) && AllBraceFree(r) && AllFree(r) && ProbedFor(r, probes)
    requires |Reply(r)| < size
    ensures var lines := StripAll(Complete(Cut(Reply(r), size) + next));
            && |lines| > 0
            && CppParse(lines[0])
               == Some(Parsed(Sanitize(r.comp), Sanitize(r.read), if probes[0].Some? then FirstTexts(r) else []))
  {
    ReplyIsALineIff(r, size, next);
    BodyIsNotStripped(r);
    PrintedLists(probes, |probes|);
    CppRoundTrip(r);
  }

  /** From the buffer to the Rust host: its reader takes exactly the reply, and its parser gets the first items. */
  lemma BufferToRust(r: Snapshot, size: nat, maxCandidates: nat, next: string)
    requires Extractable(r) && AllFree(r) && |Reply(r)| < size <= Frames.MAX_FRAME_BYTES
    ensures var (line, rest) := ReadFrom(Cut(Reply(r), size) + next, "");
            && line == Got(Body(r)) && rest == next
            && RustParse(line.text, maxCandidates)
               == Some(Parsed(Sanitize(r.comp), Sanitize(r.read), Take(FirstTexts(r), maxCandidates)))
  {
    BodyLacksBreak(r, '\n');
    BodyLacksBreak(r, '\r');
    RustReads(Body(r), next);
    RustRoundTrip(r, maxCandidates);
  }

  lemma RustReads(body: string, next: string)
    requires '\n' !in body && '\r' !in body && |body| <= Frames.MAX_FRAME_BYTES
    ensures ReadFrom(body + "\n" + next, "") == (Got(body), next)
  {
    var tail := "\n" + next;
    Regroup(body, "\n", next);
    assert tail[1..] == next && "" + body == body;
    NothingToDrop(body);
    ReadsTheLine(body, tail, "");
  }

  // ----- a reply that does not fit -----

  lemma PrintItemLength(item: Option<string>, i: nat)
    requires item.Some?
    ensures |PrintItem(item, i)| >= |item.value|
  {
  }

  lemma {:induction false} ItemsLength(items: seq<Option<string>>, n: nat)
    requires n <= |items| && forall i :: 0 <= i < n ==> items[i].Some? && |items[i].value| == LONG
    ensures |PrintItems(items, n)| >= LONG * n
  {
    if n > 0 {
      ItemsLength(items, n - 1);
      PrintItemLength(items[n - 1], n - 1);
    }
  }

  lemma TwoBlocksLength(a: (nat, string), b: (nat, string))
    ensures |PrintBlocks([a, b], 0)| >= |a.1| + |b.1|
  {
    assert |PrintBlocks([a, b], 1)| >= |b.1|;
  }

  /** A full list of eight of the longest texts. */
  function LongList(idx: nat): (l: CandList)
    ensures l.idx == idx && l.count == SHOWN == |l.items|
    ensures forall i :: 0 <= i < SHOWN ==> l.items[i] == Some(LongText())
  {
    CandList(idx, false, SHOWN, 0, 0, 8, seq(SHOWN, i => Some(LongText())))
  }

  function LongText(): (t: string)
    ensures |t| == LONG && forall i :: 0 <= i < LONG ==> t[i] == 'a'
  {
    seq(LONG, i => 'a')
  }

  lemma LongListLength(idx: nat)
    ensures |Behind(LongList(idx))| >= LONG * SHOWN
  {
    var l := LongList(idx);
    ItemsLength(l.items, SHOWN);
    assert |Behind(l)| >= |ItemText(l)| >= |PrintItems(l.items, |l.items|)|;
  }

  lemma TwoListsLength(r: Snapshot)
    requires |r.lists| == 2
    ensures |Reply(r)| > |Behind(r.lists[0])| + |Behind(r.lists[1])|
  {
    var blocks := Blocks(r.lists);
    assert blocks == [blocks[0], blocks[1]];
    TwoBlocksLength(blocks[0], blocks[1]);
    assert |Reply(r)| > |PrintLists(r.lists)|;
  }

  lemma TwoProbesArePrinted(a: CandList, b: CandList)
    requires a.idx == 0 && b.idx == 1 && a.count == b.count == |a.items| == |b.items| == SHOWN
    ensures WellProbed([Some(a), Some(b)]) && Printed([Some(a), Some(b)], 2) == [a, b]
  {
    var probes := [Some(a), Some(b)];
    assert Printed(probes, 0) == [] && Printed(probes, 1) == [a];
  }

  /** 2048 is the size of the command loop's reply buffer. */
  lemma LongListsOverflow(r: Snapshot)
    requires |r.lists| == 2 && r.lists[0] == LongList(0) && r.lists[1] == LongList(1)
    ensures |Reply(r)| > 2048 && '\n' !in Cut(Reply(r), 2048)
  {
    LongListLength(0);
    LongListLength(1);
    TwoListsLength(r);
    ReplyIsALineIff(r, 2048, "");
  }

  /** Two such lists overflow the host's reply buffer, and the line end is lost. */
  lemma TwoFullListsOverflow()
    ensures var (probes, lists) := ([Some(LongList(0)), Some(LongList(1))], [LongList(0), LongList(1)]);
            var r := Snapshot(936, 2, 4096, 0, 0, "", "", lists);
            && ProbedFor(r, probes)
            && |Reply(r)| > 2048 && '\n' !in Cut(Reply(r), 2048)
  {
    TwoProbesArePrinted(LongList(0), LongList(1));
    LongListsOverflow(Snapshot(936, 2, 4096, 0, 0, "", "", [LongList(0), LongList(1)]));
  }

  // ----- a reply without list #0 -----

  lemma SecondProbeIsPrinted(l: CandList)
    requires l.idx == 1 && l.count == |l.items| < SHOWN
    ensures WellProbed([None, Some(l)]) && Printed([None, Some(l)], 2) == [l]
  {
    var probes := [None, Some(l)];
    assert Printed(probes, 0) == [] && Printed(probes, 1) == [];
  }

  /** The IME claims two lists but list #0 cannot be fetched: the C++ parser misses the text the Rust parser gets. */
  lemma ListOneIsMissed()
    ensures var l := CandList(1, false, 1, 0, 0, 0, [Some("a")]);
            var r := Snapshot(936, 2, 64, 0, 0, "", "", [l]);
            && ProbedFor(r, [None, Some(l)]) && FullReply(r) == Body(r) + "\n"
            && RustParse(Body(r), 9) == Some(Parsed("", "", ["a"])) && CppParse(Body(r)) == Some(Parsed("", "", []))
  {
    var l := CandList(1, false, 1, 0, 0, 0, [Some("a")]);
    SecondProbeIsPrinted(l);
    assert Sanitize("a") == "a";
    NoDoubleR("a");
    OnlyALaterList(Snapshot(936, 2, 64, 0, 0, "", "", [l]), "a");
  }

  // ----- the reply when there is no candidate list at all -----

  function QuietFront(r: Snapshot): seq<string> {
    ["CAND_RET", "count=" + Decimal(0), "cp=" + Decimal(r.cp), "compBytes=" + SignedDecimal(r.compBytes)]
  }

  function QuietBack(r: Snapshot): seq<string> {
    ["readBytes=" + Decimal(r.readBytes), "lists=" + Decimal(0), "totalBytes=" + Decimal(0), "comp="]
  }

  function QuietFields(r: Snapshot): seq<string> {
    QuietFront(r) + QuietBack(r)
  }

  function QuietBody(r: Snapshot): string {
    Join(QuietFields(r), ' ') + "[" + Sanitize(r.comp) + "] read=[" + Sanitize(r.read) + "]"
  }

  lemma QuietFrontIsPlain(r: Snapshot)
    ensures PlainFields(QuietFront(r))
  {
    var fields := QuietFront(r);
    SizeNames();
    ListNames();
    OpenNames();
    forall i | 0 <= i < |fields|
      ensures Plain(fields[i])
    {
      match i
      case 0 => PlainName("CAND_RET");
      case 1 => PlainNumber("count=", 0);
      case 2 => PlainNumber("cp=", r.cp);
      case _ => PlainNumber("compBytes=", r.compBytes);
    }
  }

  lemma QuietBackIsPlain(r: Snapshot)
    ensures PlainFields(QuietBack(r))
  {
    var fields := QuietBack(r);
    SizeNames();
    OpenNames();
    forall i | 0 <= i < |fields|
      ensures Plain(fields[i])
    {
      match i
      case 0 => PlainNumber("readBytes=", r.readBytes);
      case 1 => PlainNumber("lists=", 0);
      case 2 => PlainNumber("totalBytes=", 0);
      case _ => PlainName("comp=");
    }
  }

  lemma QuietHead(r: Snapshot)
    ensures var head := Join(QuietFields(r), ' ');
            Plain(head) && EndsWith(head, "comp=") && "CAND_RET " <= head
  {
    QuietFrontIsPlain(r);
    QuietBackIsPlain(r);
    PlainJoin(QuietFields(r));
    JoinEnds(QuietFields(r), ' ');
  }

  /** A line `head[comp] read=[read]`: its fields. */
  lemma TwoFields(head: string, comp: string, afterRead: string, read: string)
    requires '[' !in head && EndsWith(head, "comp=") && '[' !in comp && ']' !in comp
    requires '[' !in read && ']' !in read && afterRead == read + "]"
    ensures var line := Layout(head, comp, afterRead);
            && ExtractBetween(line, "comp=[", ']') == Some(comp)
            && ExtractBetween(line, "read=[", ']') == Some(read)
            && ExtractBetween(line, "items=[", ']') == None
  {
    CompField(head, comp, afterRead);
    SkipComp(head, comp, afterRead);
    ReadName(comp);
    assert "read=" + "[" == "read=[" && afterRead + "" == afterRead;
    ExtractHere(comp + "] read=", '[', read, ']', "", "read=");
    NotFoundWithout(afterRead, '[', "items=[");
  }

  lemma TwoFieldsFreeIff(head: string, comp: string, afterRead: string, read: string)
    requires Free(head) && afterRead == read + "]"
    ensures Free(Layout(head, comp, afterRead)) <==> Free(comp) && Free(read)
  {
    FoundOnOneSide(head, '[', AfterComp(comp, afterRead), "err=");
    FoundOnOneSide(comp, ']', " read=" + "[" + afterRead, "err=");
    NoDoubleR(" read=");
    FoundOnOneSide(" read=", '[', afterRead, "err=");
    FoundOnOneSide(read, ']', "", "err=");
    assert afterRead == read + "]" + "";
    NoDoubleR("");
  }

  lemma TwoFieldsLackBraces(head: string, comp: string, afterRead: string, read: string)
    requires '{' !in head && '{' !in comp && '{' !in read && afterRead == read + "]"
    ensures Find(Layout(head, comp, afterRead), "#0{") == None
  {
    NotFoundWithout(Layout(head, comp, afterRead), '{', "#0{");
  }

  lemma QuietLayout(head: string, comp: string, read: string)
    ensures head + "[" + comp + "] read=[" + read + "]" == Layout(head, comp, read + "]")
  {
  }

  lemma QuietStarts(r: Snapshot)
    ensures "CAND_RET " <= QuietBody(r)
  {
    QuietHead(r);
    QuietLayout(Join(QuietFields(r), ' '), Sanitize(r.comp), Sanitize(r.read));
  }

  lemma {:induction false} QuietExtracts(r: Snapshot)
    requires BracketFree(r.comp) && BracketFree(r.read)
    ensures var line := QuietBody(r);
            && (Free(line) <==> Free(Sanitize(r.comp)) && Free(Sanitize(r.read)))
            && ExtractBetween(line, "comp=[", ']') == Some(Sanitize(r.comp))
            && ExtractBetween(line, "read=[", ']') == Some(Sanitize(r.read))
            && ExtractBetween(line, "items=[", ']') == None
    ensures BraceFree(r.comp) && BraceFree(r.read) ==> Find(QuietBody(r), "#0{") == None
  {
    QuietHead(r);
    Sanitized(r.comp);
    Sanitized(r.read);
    var (head, comp, read) := (Join(QuietFields(r), ' '), Sanitize(r.comp), Sanitize(r.read));
    QuietLayout(head, comp, read);
    TwoFields(head, comp, read + "]", read);
    TwoFieldsFreeIff(head, comp, read + "]", read);
    if BraceFree(r.comp) && BraceFree(r.read) {
      TwoFieldsLackBraces(head, comp, read + "]", read);
    }
  }

  /** Without any list both parsers still get composition and reading, and no items. */
  lemma {:induction false} QuietRoundTrip(r: Snapshot, maxCandidates: nat)
    requires BracketFree(r.comp) && BracketFree(r.read)
    ensures var parsed := if Free(Sanitize(r.comp)) && Free(Sanitize(r.read))
                          then Some(Parsed(Sanitize(r.comp), Sanitize(r.read), [])) else None;
            && RustParse(QuietBody(r), maxCandidates) == parsed
            && (BraceFree(r.comp) && BraceFree(r.read) ==> CppParse(QuietBody(r)) == parsed)
  {
    QuietExtracts(r);
    QuietStarts(r);
    NoTokens();
    RustParses(QuietBody(r), Sanitize(r.comp), Sanitize(r.read), None, maxCandidates);
    if BraceFree(r.comp) && BraceFree(r.read) {
      CppParses(QuietBody(r), Sanitize(r.comp), Sanitize(r.read), "");
    }
  }
}

/** The C++ client's parser, which fills a result in place. */
module ReplyParser {
  import opened Wrappers
  import opened Sequences
  import opened Lines
  import opened TextSearch
  import opened CandReply

  /** `std::getline` up to each bar, dropping empty tokens and the ellipsis. */
  method SplitItems(text: string) returns (items: seq<string>)
    ensures items == Keep(GetlineSplit(text, '|'))
  {
    var rest := text;
    items := [];
    while rest != ""
      invariant items + Keep(GetlineSplit(rest, '|')) == Keep(GetlineSplit(text, '|'))
      decreases |rest|
    {
      var n := IndexOf(rest, '|');
      var token, next := rest[..n], if n < |rest| then rest[n + 1..] else "";
      FirstToken(items, rest, token, next);
      if token != "" && token != "..." {
        items := items + [token];
      }
      rest := next;
    }
  }

  lemma {:induction false} FirstToken(items: seq<string>, rest: string, token: string, next: string)
    requires rest != "" && token == rest[..IndexOf(rest, '|')]
    requires next == if '|' in rest then rest[IndexOf(rest, '|') + 1..] else ""
    ensures items + Keep(GetlineSplit(rest, '|'))
            == (if Kept(token) then items + [token] else items) + Keep(GetlineSplit(next, '|'))
  {
    assert Keep([token]) == if Kept(token) then [token] else [] by { assert [token][1..] == []; }
    assert items + [] == items;
    if '|' in rest {
      KeepSplits(rest);
      Regroup(items, Keep([token]), Keep(GetlineSplit(next, '|')));
    } else {
      assert token == rest;
      assert items + Keep([token]) + [] == items + Keep([token]);
    }
  }

  class ProxyResult {
    var composition: string
    var reading: string
    var items: seq<string>

    constructor ()
      ensures composition == "" && reading == "" && items == []
    {
      composition, reading, items := "", "", [];
    }

    function Abs(): Parsed
      reads this
    {
      Parsed(composition, reading, items)
    }

    method ParseCandidateReply(line: string) returns (ok: bool)
      modifies this
      ensures ok <==> CppParse(line).Some?
      ensures Abs() == if ok then Filled(old(Abs()), line) else old(Abs())
    {
      if !("CAND_RET " <= line) {
        return false;
      }
      if Find(line, "err=").Some? {
        return false;
      }
      var comp := ExtractBetween(line, "comp=[", ']');
      if comp.Some? {
        composition := comp.value;
      }
      var read := ExtractBetween(line, "read=[", ']');
      if read.Some? {
        reading := read.value;
      }
      var p0 := Find(line, "#0{");
      if p0.None? {
        return true;
      }
      var raw := ExtractBetween(line[p0.value..], "items=[", ']');
      if raw.None? {
        return true;
      }
      items := SplitItems(raw.value);
      return true;
    }
  }

  function Or<T>(found: Option<T>, was: T): T {
    match found case None => was case Some(t) => t
  }

  /** A field that is not found keeps its old value. */
  function Filled(was: Parsed, line: string): Parsed {
    var raw := match Find(line, "#0{") case None => None case Some(p) => ExtractBetween(line[p..], "items=[", ']');
    Parsed(Or(ExtractBetween(line, "comp=[", ']'), was.composition),
           Or(ExtractBetween(line, "read=[", ']'), was.reading),
           match raw case None => was.items case Some(text) => Keep(GetlineSplit(text, '|')))
  }

  /** Into an empty result the method parses what `CppParse` says. */
  lemma {:induction false} EmptyResultIsFilled(line: string)
    requires CppParse(line).Some?
    ensures Filled(Parsed("", "", []), line) == CppParse(line).value
  {
  }
}
