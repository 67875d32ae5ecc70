/** Text search and splitting, as `find` and `split` do it. */
module TextSearch {
  import opened Wrappers
  import opened Sequences
  import opened Lines

  function Find(s: string, pat: string): (r: Option<nat>)
    ensures r.Some? ==> r.value + |pat| <= |s|
  {
    if |s| < |pat| then None
    else if s[..|pat|] == pat then Some(0)
    else if s == "" then None
    else match Find(s[1..], pat) case None => None case Some(k) => Some(k + 1)
  }

  function Shift(r: Option<nat>, k: nat): Option<nat> {
    match r case None => None case Some(n) => Some(n + k)
  }

  predicate EndsWith(s: string, suffix: string) {
    |suffix| <= |s| && s[|s| - |suffix|..] == suffix
  }

  /** The text between the first `begin` and the next `endChar`. */
  function ExtractBetween(s: string, begin: string, endChar: char): Option<string> {
    match Find(s, begin)
    case None => None
    case Some(p) =>
      var rest := s[p + |begin|..];
      var q := IndexOf(rest, endChar);
      if q == |rest| then None else Some(rest[..q])
  }

  /** Rust's `split`: one more piece than there are separators. */
  function Split(s: string, c: char): seq<string>
    decreases |s|
  {
    var n := IndexOf(s, c);
    if n == |s| then [s] else [s[..n]] + Split(s[n + 1..], c)
  }

  /** `std::getline` in a loop: like `Split`, but without a last empty piece. */
  function GetlineSplit(s: string, c: char): seq<string>
    decreases |s|
  {
    if s == "" then []
    else
      var n := IndexOf(s, c);
      if n == |s| then [s] else [s[..n]] + GetlineSplit(s[n + 1..], c)
  }

  // ----- a pattern that ends in a separator, in a string cut at that separator -----

  lemma PrefixUpToSeparator(a: string, c: char, b: string, pat: string)
    requires c !in a && c !in pat
    ensures pat + [c] <= a + [c] + b <==> a == pat
  {
    var s, p := a + [c] + b, pat + [c];
    if |pat| < |a| {
      assert p[|pat|] == c && s[|pat|] == a[|pat|];
    } else if |pat| > |a| {
      assert s[|a|] == c && p[|a|] == pat[|a|];
    } else if p <= s {
      assert a == s[..|a|] == p[..|a|] == pat;
    }
  }

  /** The search either ends at the first separator or starts again behind it. */
  lemma {:induction false} FindAtSeparator(a: string, c: char, b: string, pat: string)
    requires c !in a && c !in pat && pat != ""
    ensures Find(a + [c] + b, pat + [c])
            == if EndsWith(a, pat) then Some(|a| - |pat|) else Shift(Find(b, pat + [c]), |a| + 1)
  {
    var s, p := a + [c] + b, pat + [c];
    PrefixUpToSeparator(a, c, b, pat);
    if a == "" {
      assert s[1..] == b;
      assert s[0] != p[0];
      if |s| >= |p| { assert s[..|p|][0] == s[0]; }
    } else {
      assert s[1..] == a[1..] + [c] + b;
      FindAtSeparator(a[1..], c, b, pat);
      if |a| > |pat| {
        assert a[|a| - |pat|..] == a[1..][|a| - 1 - |pat|..];
      }
      assert |s| >= |p| && s[..|p|] == p <==> p <= s;
    }
  }

  /** A field that ends in the wanted name: the text up to the closing character is extracted. */
  lemma ExtractHere(a: string, c: char, text: string, endChar: char, tail: string, pat: string)
    requires c !in a && c !in pat && pat != "" && EndsWith(a, pat) && endChar !in text
    ensures ExtractBetween(a + [c] + (text + [endChar] + tail), pat + [c], endChar) == Some(text)
  {
    var b := text + [endChar] + tail;
    FindAtSeparator(a, c, b, pat);
    var s := a + [c] + b;
    assert s[|a| + 1..] == b;
    assert b == text + ([endChar] + tail);
    IndexOfPrefix(text, [endChar] + tail, endChar);
    assert IndexOf([endChar] + tail, endChar) == 0;
    assert b[..|text|] == text;
  }

  /** A field with another name is passed over. */
  lemma {:induction false} ExtractLater(a: string, c: char, b: string, endChar: char, pat: string)
    requires c !in a && c !in pat && pat != "" && !EndsWith(a, pat)
    ensures ExtractBetween(a + [c] + b, pat + [c], endChar) == ExtractBetween(b, pat + [c], endChar)
  {
    FindAtSeparator(a, c, b, pat);
    assert (a + [c] + b)[|a| + 1..] == b;
    ExtractBehind(a + [c] + b, b, pat + [c], endChar, |a| + 1);
  }

  lemma {:induction false} ExtractBehind(s: string, b: string, begin: string, endChar: char, n: nat)
    requires n <= |s| && s[n..] == b && Find(s, begin) == Shift(Find(b, begin), n)
    ensures ExtractBetween(s, begin, endChar) == ExtractBetween(b, begin, endChar)
  {
    var found := Find(b, begin);
    if found.Some? {
      var m := found.value + |begin|;
      assert s[n + m..] == b[m..];
    }
  }

  lemma {:induction false} NotFoundWithout(s: string, c: char, pat: string)
    requires c !in s && c in pat
    ensures Find(s, pat) == None
  {
    if |s| >= |pat| {
      assert s[..|pat|] != pat;
      if s != "" {
        NotFoundWithout(s[1..], c, pat);
      }
    }
  }

  /** A pattern without the separator occurs in one of the two sides or not at all. */
  lemma {:induction false} FoundOnOneSide(a: string, c: char, b: string, pat: string)
    requires c !in pat && pat != ""
    ensures Find(a + [c] + b, pat).Some? <==> Find(a, pat).Some? || Find(b, pat).Some?
  {
    var s := a + [c] + b;
    if a == "" {
      assert s[1..] == b;
      if |s| >= |pat| { assert s[..|pat|][0] == c; }
    } else {
      assert s[1..] == a[1..] + [c] + b;
      FoundOnOneSide(a[1..], c, b, pat);
      if |a| >= |pat| {
        assert s[..|pat|] == a[..|pat|];
      } else if |s| >= |pat| {
        assert s[..|pat|][|a|] == c;
      }
    }
  }

  lemma SplitFirst(a: string, c: char, b: string)
    requires c !in a
    ensures Split(a + [c] + b, c) == [a] + Split(b, c)
  {
    var s := a + [c] + b;
    assert s == a + ([c] + b);
    IndexOfPrefix(a, [c] + b, c);
    assert IndexOf([c] + b, c) == 0;
    assert s[..|a|] == a && s[|a| + 1..] == b;
  }

  lemma {:induction false} SplitFirst2(a: string, c: char, b: string)
    requires c in a
    ensures var (n, back) := (IndexOf(a, c), a[IndexOf(a, c) + 1..]);
            Split(a, c) == [a[..n]] + Split(back, c) && Split(a + [c] + b, c) == [a[..n]] + Split(back + [c] + b, c)
  {
    var n := IndexOf(a, c);
    var s := a + [c] + b;
    assert s == a + ([c] + b);
    IndexOfPrefix(a, [c] + b, c);
    assert s[..n] == a[..n] && s[n + 1..] == a[n + 1..] + [c] + b;
  }

  lemma {:induction false} SplitConcat(a: string, c: char, b: string)
    ensures Split(a + [c] + b, c) == Split(a, c) + Split(b, c)
    decreases |a|
  {
    if c !in a {
      SplitFirst(a, c, b);
      assert Split(a, c) == [a];
    } else {
      SplitFirst2(a, c, b);
      var (n, back) := (IndexOf(a, c), a[IndexOf(a, c) + 1..]);
      SplitConcat(back, c, b);
      Regroup([a[..n]], Split(back, c), Split(b, c));
    }
  }

  // ----- fields joined by a separator -----

  function Join(fields: seq<string>, c: char): string {
    if fields == [] then "" else if |fields| == 1 then fields[0] else fields[0] + [c] + Join(fields[1..], c)
  }

  lemma {:induction false} JoinFinds(fields: seq<string>, c: char, pat: string)
    requires c !in pat && pat != "" && forall i :: 0 <= i < |fields| ==> Find(fields[i], pat) == None
    ensures Find(Join(fields, c), pat) == None
  {
    if |fields| > 1 {
      JoinFinds(fields[1..], c, pat);
      FoundOnOneSide(fields[0], c, Join(fields[1..], c), pat);
    }
  }

  lemma {:induction false} JoinEnds(fields: seq<string>, c: char)
    requires fields != []
    ensures EndsWith(Join(fields, c), fields[|fields| - 1])
    ensures |fields| > 1 ==> fields[0] + [c] <= Join(fields, c)
  {
    if |fields| > 1 {
      JoinEnds(fields[1..], c);
      var t := Join(fields[1..], c);
      var n := |fields[|fields| - 1]|;
      assert Join(fields, c)[|Join(fields, c)| - n..] == t[|t| - n..];
    }
  }

  lemma {:induction false} JoinLacks(fields: seq<string>, c: char, d: char)
    requires c != d && forall i :: 0 <= i < |fields| ==> d !in fields[i]
    ensures d !in Join(fields, c)
  {
    if |fields| > 1 {
      JoinLacks(fields[1..], c, d);
    }
  }
}

/** The candidate reply of the command host: its printer and the Rust and C++ parsers. */
module CandReply {
  import opened Wrappers
  import opened Sequences
  import opened Lines
  import opened TextSearch
  import opened WorkerIds

  // ----- the printer -----

  /** One printed list; `items` are the first eight slots, `None` where the offset is outside the buffer. */
  datatype CandList = CandList(
    idx: nat, ansi: bool, count: nat, sel: nat, pageStart: nat, pageSize: nat, items: seq<Option<string>>)

  datatype Snapshot = Snapshot(
    cp: nat, listCount: nat, totalSize: nat, compBytes: int, readBytes: nat,
    comp: string, read: string, lists: seq<CandList>)

  ghost predicate Increasing(r: Snapshot) {
    forall j, k :: 0 <= j < k < |r.lists| ==> r.lists[j].idx < r.lists[k].idx
  }

  function SignedDecimal(n: int): string {
    if n < 0 then "-" + Decimal(-n) else Decimal(n)
  }

  /** `sanitize_token`. */
  function Sanitize(s: string): (t: string)
    ensures |t| == |s|
  {
    seq(|s|, i requires 0 <= i < |s| => if s[i] in {'|', '\r', '\n', ';'} then ' ' else s[i])
  }

  function HeadFields(r: Snapshot): seq<string> {
    ["CAND_RET", "cp=" + Decimal(r.cp), "lists=" + Decimal(r.listCount), "totalBytes=" + Decimal(r.totalSize),
     "compBytes=" + SignedDecimal(r.compBytes), "readBytes=" + Decimal(r.readBytes), "comp="]
  }

  function Head(r: Snapshot): string {
    Join(HeadFields(r), ' ')
  }

  function ListFields(l: CandList): seq<string> {
    ["enc=" + (if l.ansi then "A" else "W"), "count=" + Decimal(l.count), "sel=" + Decimal(l.sel),
     "pageStart=" + Decimal(l.pageStart), "pageSize=" + Decimal(l.pageSize), "items="]
  }

  /** The first `n` slots: a bar goes before every printed slot but slot 0. */
  function PrintItems(items: seq<Option<string>>, n: nat): string
    requires n <= |items|
  {
    if n == 0 then ""
    else PrintItems(items, n - 1) + PrintItem(items[n - 1], n - 1)
  }

  function PrintItem(item: Option<string>, i: nat): string {
    match item case None => "" case Some(t) => (if i > 0 then "|" else "") + Sanitize(t)
  }

  function ItemText(l: CandList): string {
    PrintItems(l.items, |l.items|) + (if l.count > 8 then "|..." else "")
  }

  /** What a list prints behind its opening brace. */
  function Behind(l: CandList): string {
    Join(ListFields(l), ' ') + "[" + ItemText(l) + "]}"
  }

  /** The lists as numbered blocks `#n{...}` from the `k`th on, with semicolons between them. */
  function PrintBlocks(blocks: seq<(nat, string)>, k: nat): string
    requires k <= |blocks|
    decreases |blocks| - k
  {
    if k == |blocks| then ""
    else (if k > 0 then ";" else "") + "#" + Decimal(blocks[k].0) + "{" + blocks[k].1 + PrintBlocks(blocks, k + 1)
  }

  function Blocks(lists: seq<CandList>): (b: seq<(nat, string)>)
    ensures |b| == |lists|
    ensures forall k :: 0 <= k < |b| ==> b[k] == (lists[k].idx, Behind(lists[k]))
  {
    seq(|lists|, k requires 0 <= k < |lists| => (lists[k].idx, Behind(lists[k])))
  }

  function PrintLists(lists: seq<CandList>): string {
    PrintBlocks(Blocks(lists), 0)
  }

  function Body(r: Snapshot): string {
    Head(r) + "[" + Sanitize(r.comp) + "] read=[" + Sanitize(r.read) + "] data="
    + (if r.lists == [] then "none" else PrintLists(r.lists))
  }

  function Reply(r: Snapshot): string {
    Body(r) + "\n"
  }

  // ----- the parsers -----

  datatype Parsed = Parsed(composition: string, reading: string, items: seq<string>)

  predicate Kept(token: string) {
    token != "" && token != "..."
  }

  function Keep(tokens: seq<string>): seq<string> {
    if tokens == [] then [] else (if Kept(tokens[0]) then [tokens[0]] else []) + Keep(tokens[1..])
  }

  function OrEmpty(s: Option<string>): string {
    match s case None => "" case Some(t) => t
  }

  /** `parse_candidate_reply` of the Rust host; `None` is its error. */
  function RustParse(line: string, maxCandidates: nat): Option<Parsed> {
    if !("CAND_RET " <= line) || Find(line, "err=").Some? then None
    else
      var tokens := Keep(Split(OrEmpty(ExtractBetween(line, "items=[", ']')), '|'));
      Some(Parsed(OrEmpty(ExtractBetween(line, "comp=[", ']')), OrEmpty(ExtractBetween(line, "read=[", ']')),
                  if |tokens| > maxCandidates then tokens[..maxCandidates] else tokens))
  }

  /** `parse_candidate_reply` of the C++ client: only list #0 counts. */
  function CppParse(line: string): Option<Parsed> {
    if !("CAND_RET " <= line) || Find(line, "err=").Some? then None
    else
      var comp, read := OrEmpty(ExtractBetween(line, "comp=[", ']')), OrEmpty(ExtractBetween(line, "read=[", ']'));
      match Find(line, "#0{")
      case None => Some(Parsed(comp, read, []))
      case Some(p) =>
        match ExtractBetween(line[p..], "items=[", ']')
        case None => Some(Parsed(comp, read, []))
        case Some(raw) => Some(Parsed(comp, read, Keep(GetlineSplit(raw, '|'))))
  }

  // ----- what survives printing and parsing -----

  predicate BracketFree(s: string) {
    '[' !in s && ']' !in s
  }

  predicate BraceFree(s: string) {
    '{' !in s
  }

  predicate ItemsLack(items: seq<Option<string>>, c: char) {
    forall i :: 0 <= i < |items| && items[i].Some? ==> c !in items[i].value
  }

  predicate ItemsBracketFree(l: CandList) {
    ItemsLack(l.items, '[') && ItemsLack(l.items, ']')
  }

  /** No square bracket in composition, reading and the first printed list. */
  predicate Extractable(r: Snapshot) {
    BracketFree(r.comp) && BracketFree(r.read) && (r.lists != [] ==> ItemsBracketFree(r.lists[0]))
  }

  /** No opening brace anywhere, which only the C++ parser looks for. */
  ghost predicate AllBraceFree(r: Snapshot) {
    && BraceFree(r.comp) && BraceFree(r.read)
    && forall k :: 0 <= k < |r.lists| ==> ItemsLack(r.lists[k].items, '{')
  }

  predicate Free(s: string) {
    Find(s, "err=").None?
  }

  predicate ItemsFree(items: seq<Option<string>>) {
    forall i :: 0 <= i < |items| && items[i].Some? ==> Free(Sanitize(items[i].value))
  }

  ghost predicate AllFree(r: Snapshot) {
    Free(Sanitize(r.comp)) && Free(Sanitize(r.read)) && forall k :: 0 <= k < |r.lists| ==> ItemsFree(r.lists[k].items)
  }

  function Texts(items: seq<Option<string>>): seq<string> {
    if items == [] then []
    else Texts(items[..|items| - 1]) + (match items[|items| - 1] case None => [] case Some(t) => [Sanitize(t)])
  }

  lemma Sanitized(s: string)
    ensures '|' !in Sanitize(s) && '\n' !in Sanitize(s) && '\r' !in Sanitize(s) && ';' !in Sanitize(s)
    ensures forall c :: c !in s && c != ' ' ==> c !in Sanitize(s)
  {
  }

  lemma {:induction false} NoDoubleR(s: string)
    requires forall i :: 0 <= i < |s| - 1 && s[i] == 'r' ==> s[i + 1] != 'r'
    ensures Free(s)
  {
    if |s| >= 4 {
      assert s[..4][1] == s[1] && s[..4][2] == s[2];
      NoDoubleR(s[1..]);
    }
  }

  /** Contributes neither an `err=` nor a bracket, a brace or a line break. */
  ghost predicate Plain(s: string) {
    Free(s) && BracketFree(s) && BraceFree(s) && '\n' !in s && '\r' !in s
  }

  ghost predicate PlainFields(fields: seq<string>) {
    forall i :: 0 <= i < |fields| ==> Plain(fields[i])
  }

  lemma PlainJoin(fields: seq<string>)
    requires PlainFields(fields) && fields != []
    ensures Plain(Join(fields, ' '))
  {
    JoinFinds(fields, ' ', "err=");
    JoinLacks(fields, ' ', '[');
    JoinLacks(fields, ' ', ']');
    JoinLacks(fields, ' ', '{');
    JoinLacks(fields, ' ', '\r');
    JoinLacks(fields, ' ', '\n');
  }

  /** Lower- and upper-case letters and `=`, without a double `r`. */
  ghost predicate Name(s: string) {
    && (forall i :: 0 <= i < |s| ==> s[i] == '=' || 'A' <= s[i] <= 'Z' || s[i] == '_' || 'a' <= s[i] <= 'z')
    && (forall i :: 0 <= i < |s| - 1 && s[i] == 'r' ==> s[i + 1] != 'r')
  }

  lemma FreeNumber(name: string, n: int)
    requires Name(name)
    ensures Free(name + SignedDecimal(n))
  {
    var f := name + SignedDecimal(n);
    forall i | 0 <= i < |f| - 1 && f[i] == 'r'
      ensures f[i + 1] != 'r'
    {
      assert i < |name|;
    }
    NoDoubleR(f);
  }

  lemma PlainNumber(name: string, n: int)
    requires Name(name)
    ensures Plain(name + SignedDecimal(n))
  {
    FreeNumber(name, n);
  }

  lemma PlainName(name: string)
    requires Name(name)
    ensures Plain(name)
  {
    NoDoubleR(name);
  }

  lemma SizeNames()
    ensures Name("cp=") && Name("lists=") && Name("totalBytes=") && Name("compBytes=") && Name("readBytes=")
  {
  }

  lemma ListNames()
    ensures Name("count=") && Name("sel=") && Name("pageStart=") && Name("pageSize=")
  {
  }

  lemma OpenNames()
    ensures Name("CAND_RET") && Name("comp=") && Name("items=")
  {
  }

  lemma HeadIsPlain(r: Snapshot)
    ensures PlainFields(HeadFields(r))
  {
    var fields := HeadFields(r);
    SizeNames();
    OpenNames();
    forall i | 0 <= i < |fields|
      ensures Plain(fields[i])
    {
      match i
      case 0 => PlainName("CAND_RET");
      case 1 => PlainNumber("cp=", r.cp);
      case 2 => PlainNumber("lists=", r.listCount);
      case 3 => PlainNumber("totalBytes=", r.totalSize);
      case 4 => PlainNumber("compBytes=", r.compBytes);
      case 5 => PlainNumber("readBytes=", r.readBytes);
      case _ => PlainName("comp=");
    }
  }

  lemma PlainEncoding(ansi: bool)
    ensures Plain("enc=" + (if ansi then "A" else "W"))
  {
    if ansi {
      PlainName("enc=A");
      assert "enc=" + "A" == "enc=A";
    } else {
      PlainName("enc=W");
      assert "enc=" + "W" == "enc=W";
    }
  }

  lemma ListFieldsArePlain(l: CandList)
    ensures PlainFields(ListFields(l))
  {
    var fields := ListFields(l);
    ListNames();
    OpenNames();
    forall i | 0 <= i < |fields|
      ensures Plain(fields[i])
    {
      match i
      case 0 => PlainEncoding(l.ansi);
      case 1 => PlainNumber("count=", l.count);
      case 2 => PlainNumber("sel=", l.sel);
      case 3 => PlainNumber("pageStart=", l.pageStart);
      case 4 => PlainNumber("pageSize=", l.pageSize);
      case _ => PlainName("items=");
    }
  }

  lemma HeadFacts(r: Snapshot)
    ensures Plain(Head(r)) && EndsWith(Head(r), "comp=") && "CAND_RET " <= Head(r)
  {
    HeadIsPlain(r);
    PlainJoin(HeadFields(r));
    JoinEnds(HeadFields(r), ' ');
  }

  lemma ListFieldFacts(l: CandList)
    ensures var j := Join(ListFields(l), ' '); Plain(j) && EndsWith(j, "items=")
  {
    ListFieldsArePlain(l);
    PlainJoin(ListFields(l));
    JoinEnds(ListFields(l), ' ');
  }

  lemma DifferentEndings(s: string, a: string, b: string)
    requires EndsWith(s, a) && |a| >= 3 && |b| >= 3 && a[|a| - 2] != b[|b| - 2]
    ensures !EndsWith(s, b)
  {
    assert s[|s| - |a|..][|a| - 2] == s[|s| - 2];
    assert |s| >= |b| ==> s[|s| - |b|..][|b| - 2] == s[|s| - 2];
  }

  // ----- the three bracketed fields -----

  /** The printed line, with its bracketed fields nested to the right. */
  function Layout(head: string, comp: string, afterRead: string): string {
    head + "[" + AfterComp(comp, afterRead)
  }

  function AfterComp(comp: string, afterRead: string): string {
    comp + "]" + (" read=" + "[" + afterRead)
  }

  function Data(r: Snapshot): string {
    if r.lists == [] then "none" else PrintLists(r.lists)
  }

  /** Everything behind the opening bracket of the reading. */
  function AfterRead(read: string, data: string): string {
    read + "]" + (" data=" + data)
  }

  lemma LayoutText(head: string, comp: string, read: string, data: string)
    ensures head + "[" + comp + "] read=[" + read + "] data=" + data == Layout(head, comp, AfterRead(read, data))
  {
  }

  lemma BodyLayout(r: Snapshot)
    ensures Body(r) == Layout(Head(r), Sanitize(r.comp), AfterRead(Sanitize(r.read), Data(r)))
  {
    LayoutText(Head(r), Sanitize(r.comp), Sanitize(r.read), Data(r));
  }

  lemma ReadName(comp: string)
    requires '[' !in comp
    ensures var name := comp + "] read=";
            '[' !in name && EndsWith(name, "read=") && !EndsWith(name, "items=")
  {
    var name := comp + "] read=";
    assert name[|name| - 5..] == "read=";
    DifferentEndings(name, "read=", "items=");
  }

  lemma CompField(head: string, comp: string, afterRead: string)
    requires '[' !in head && EndsWith(head, "comp=") && ']' !in comp
    ensures ExtractBetween(Layout(head, comp, afterRead), "comp=[", ']') == Some(comp)
  {
    assert "comp=" + "[" == "comp=[";
    ExtractHere(head, '[', comp, ']', " read=" + "[" + afterRead, "comp=");
  }

  /** Neither of the first two fields is taken for the items; the first is not taken for the reading. */
  lemma SkipComp(head: string, comp: string, afterRead: string)
    requires '[' !in head && EndsWith(head, "comp=") && '[' !in comp
    ensures ExtractBetween(Layout(head, comp, afterRead), "read=[", ']')
            == ExtractBetween(comp + "] read=" + "[" + afterRead, "read=[", ']')
    ensures ExtractBetween(Layout(head, comp, afterRead), "items=[", ']') == ExtractBetween(afterRead, "items=[", ']')
  {
    assert "read=" + "[" == "read=[" && "items=" + "[" == "items=[";
    var name := comp + "] read=";
    assert AfterComp(comp, afterRead) == name + "[" + afterRead;
    DifferentEndings(head, "comp=", "read=");
    ExtractLater(head, '[', AfterComp(comp, afterRead), ']', "read=");
    DifferentEndings(head, "comp=", "items=");
    ExtractLater(head, '[', AfterComp(comp, afterRead), ']', "items=");
    ReadName(comp);
    ExtractLater(name, '[', afterRead, ']', "items=");
  }

  lemma ReadField(head: string, comp: string, read: string, data: string)
    requires '[' !in head && EndsWith(head, "comp=") && '[' !in comp && ']' !in read
    ensures ExtractBetween(Layout(head, comp, AfterRead(read, data)), "read=[", ']') == Some(read)
  {
    SkipComp(head, comp, AfterRead(read, data));
    ReadName(comp);
    assert "read=" + "[" == "read=[";
    ExtractHere(comp + "] read=", '[', read, ']', " data=" + data, "read=");
  }

  lemma CompAndReading(r: Snapshot)
    requires BracketFree(r.comp) && BracketFree(r.read)
    ensures ExtractBetween(Body(r), "comp=[", ']') == Some(Sanitize(r.comp))
    ensures ExtractBetween(Body(r), "read=[", ']') == Some(Sanitize(r.read))
  {
    BodyLayout(r);
    HeadFacts(r);
    Sanitized(r.comp);
    Sanitized(r.read);
    CompField(Head(r), Sanitize(r.comp), AfterRead(Sanitize(r.read), Data(r)));
    ReadField(Head(r), Sanitize(r.comp), Sanitize(r.read), Data(r));
  }

  lemma {:induction false} FirstBlock(blocks: seq<(nat, string)>)
    requires blocks != []
    ensures PrintBlocks(blocks, 0) == "#" + Decimal(blocks[0].0) + "{" + (blocks[0].1 + PrintBlocks(blocks, 1))
  {
  }

  lemma MarkFacts(n: nat)
    ensures var mark := "#" + Decimal(n); '[' !in mark && '{' !in mark && '\n' !in mark
  {
  }

  lemma {:induction false} ItemsLackChar(items: seq<Option<string>>, n: nat, c: char)
    requires n <= |items| && ItemsLack(items, c) && c !in {'|', ' '}
    ensures c !in PrintItems(items, n)
  {
    if n > 0 {
      ItemsLackChar(items, n - 1, c);
      if items[n - 1].Some? {
        Sanitized(items[n - 1].value);
      }
    }
  }

  lemma NoItems(read: string)
    requires '[' !in read
    ensures ExtractBetween(AfterRead(read, "none"), "items=[", ']') == None
  {
    assert '[' !in AfterRead(read, "none");
    NotFoundWithout(AfterRead(read, "none"), '[', "items=[");
  }

  /** The items of a block `... items=[...]} ...` behind text without brackets. */
  lemma ItemsField(x: string, fields: string, items: string, tail: string)
    requires '[' !in x && '[' !in fields && EndsWith(fields, "items=") && ']' !in items
    ensures ExtractBetween(x + ((fields + "[" + items + "]}") + tail), "items=[", ']') == Some(items)
  {
    var name := x + fields;
    assert name[|name| - 6..] == fields[|fields| - 6..];
    assert "items=" + "[" == "items=[";
    ExtractHere(name, '[', items, ']', "}" + tail, "items=");
    ItemsLayout(x, fields, items, tail);
  }

  lemma ItemsLayout(x: string, fields: string, items: string, tail: string)
    ensures x + ((fields + "[" + items + "]}") + tail) == x + fields + "[" + (items + "]" + ("}" + tail))
  {
    assert "]" + "}" == "]}";
    Regroup(items, "]", "}");
    Regroup(fields + "[", items, "]}");
    Regroup(fields + "[", items + "]" + "}", tail);
    Regroup(items + "]", "}", tail);
    Regroup(x, fields + "[", items + "]" + ("}" + tail));
    Regroup(x, fields, "[");
  }

  lemma DataItems(read: string, mark: string, block: string)
    ensures AfterRead(read, "#" + mark + "{" + block) == (read + "] data=" + ("#" + mark) + "{") + block
  {
  }

  /** `block` carries `items` in its one bracketed field. */
  ghost predicate Carries(block: string, fields: string, items: string) {
    && block == fields + "[" + items + "]}"
    && '[' !in fields && EndsWith(fields, "items=") && ']' !in items
  }

  lemma BehindCarries(l: CandList)
    requires ItemsBracketFree(l)
    ensures Carries(Behind(l), Join(ListFields(l), ' '), ItemText(l))
  {
    ListFieldFacts(l);
    ItemTextLacks(l, '[');
    ItemTextLacks(l, ']');
  }

  lemma {:induction false} FirstBlockItems(read: string, blocks: seq<(nat, string)>, fields: string, items: string)
    requires '[' !in read && blocks != [] && Carries(blocks[0].1, fields, items)
    ensures ExtractBetween(AfterRead(read, PrintBlocks(blocks, 0)), "items=[", ']') == Some(items)
  {
    var (n, block, tail) := (blocks[0].0, blocks[0].1, PrintBlocks(blocks, 1));
    FirstBlock(blocks);
    MarkFacts(n);
    DataItems(read, Decimal(n), block + tail);
    ItemsField(read + "] data=" + ("#" + Decimal(n)) + "{", fields, items, tail);
  }

  lemma FirstItems(r: Snapshot)
    requires Extractable(r)
    ensures ExtractBetween(Body(r), "items=[", ']') == if r.lists == [] then None else Some(ItemText(r.lists[0]))
  {
    var read := Sanitize(r.read);
    BodyLayout(r);
    HeadFacts(r);
    Sanitized(r.comp);
    Sanitized(r.read);
    SkipComp(Head(r), Sanitize(r.comp), AfterRead(read, Data(r)));
    if r.lists == [] {
      NoItems(read);
    } else {
      var l := r.lists[0];
      BehindCarries(l);
      FirstBlockItems(read, Blocks(r.lists), Join(ListFields(l), ' '), ItemText(l));
    }
  }

  lemma ItemTextLacks(l: CandList, c: char)
    requires ItemsLack(l.items, c) && c !in {'|', ' ', '.'}
    ensures c !in ItemText(l)
  {
    ItemsLackChar(l.items, |l.items|, c);
  }

  // ----- list #0, as the C++ parser looks for it -----

  lemma ZeroOnly(n: nat)
    ensures Decimal(n) == "0" <==> n == 0
  {
    ValueOfDecimal(n);
    assert Value("0") == 0 by { assert "0"[..0] == ""; }
  }

  lemma EndsWithZeroMark(x: string, n: nat)
    ensures EndsWith(x + "#" + Decimal(n), "#0") <==> n == 0
  {
    ZeroOnly(n);
    var (s, d) := (x + "#" + Decimal(n), Decimal(n));
    assert s[|s| - 1] == d[|d| - 1];
    assert |d| >= 2 ==> s[|s| - 2] == d[|d| - 2];
    assert |d| == 1 ==> s[|s| - 2] == '#';
    assert s[|s| - 2..] == [s[|s| - 2], s[|s| - 1]];
  }

  function Bar(k: nat): string {
    if k > 0 then ";" else ""
  }

  lemma {:induction false} BlockStep(blocks: seq<(nat, string)>, k: nat, x: string)
    requires k < |blocks|
    ensures x + PrintBlocks(blocks, k)
            == x + Bar(k) + "#" + Decimal(blocks[k].0) + "{" + (blocks[k].1 + PrintBlocks(blocks, k + 1))
  {
    var (number, block, more) := (Decimal(blocks[k].0), blocks[k].1, PrintBlocks(blocks, k + 1));
    Regroup(x, Bar(k) + "#" + number + "{" + block, more);
    Regroup(x, Bar(k) + "#" + number + "{", block);
    Chain(x, Bar(k), "#", number, "{");
    Regroup(x + Bar(k) + "#" + number + "{", block, more);
  }

  /** No list with a positive number is mistaken for list #0, whatever brace-free text stands before it. */
  lemma {:induction false} NoZeroMark(blocks: seq<(nat, string)>, k: nat, x: string)
    requires k <= |blocks| && '{' !in x
    requires forall i :: k <= i < |blocks| ==> blocks[i].0 > 0 && '{' !in blocks[i].1
    ensures Find(x + PrintBlocks(blocks, k), "#0{") == None
    decreases |blocks| - k
  {
    if k == |blocks| {
      assert x + "" == x;
      NotFoundWithout(x, '{', "#0{");
    } else {
      NoZeroMark(blocks, k + 1, blocks[k].1);
      ZeroMarkAt(x + Bar(k), blocks[k].0, blocks[k].1 + PrintBlocks(blocks, k + 1));
      BlockStep(blocks, k, x);
    }
  }

  lemma BehindLacksBrace(l: CandList)
    requires ItemsLack(l.items, '{')
    ensures '{' !in Behind(l)
  {
    ListFieldFacts(l);
    ItemTextLacks(l, '{');
  }

  /** The mark of the next list decides, unless a later list brings the wanted one. */
  lemma ZeroMarkAt(x: string, idx: nat, rest: string)
    requires '{' !in x
    ensures Find(x + "#" + Decimal(idx) + "{" + rest, "#0{")
            == if idx == 0 then Some(|x|) else Shift(Find(rest, "#0{"), |x| + 2 + |Decimal(idx)|)
  {
    assert "#0" + "{" == "#0{";
    var before := x + "#" + Decimal(idx);
    EndsWithZeroMark(x, idx);
    FindAtSeparator(before, '{', rest, "#0");
    ZeroOnly(idx);
  }

  /** The part of the line the C++ parser reads the items from, if it finds list #0. */
  lemma ListZero(r: Snapshot)
    requires Extractable(r) && AllBraceFree(r) && Increasing(r)
    ensures var line := Body(r);
            match Find(line, "#0{")
            case None => r.lists == [] || r.lists[0].idx > 0
            case Some(p) => r.lists != [] && r.lists[0].idx == 0
                            && ExtractBetween(line[p..], "items=[", ']') == Some(ItemText(r.lists[0]))
  {
    var x := Head(r) + "[" + Sanitize(r.comp) + "] read=[" + Sanitize(r.read) + "] data=";
    var blocks := Blocks(r.lists);
    XLacksBrace(r);
    if r.lists == [] {
      assert '{' !in "none";
      NotFoundWithout(x + "none", '{', "#0{");
    } else if r.lists[0].idx > 0 {
      forall i | 0 <= i < |blocks|
        ensures blocks[i].0 > 0 && '{' !in blocks[i].1
      {
        BehindLacksBrace(r.lists[i]);
      }
      NoZeroMark(blocks, 0, x);
    } else {
      BehindCarries(r.lists[0]);
      FoundZero(x, blocks, Join(ListFields(r.lists[0]), ' '), ItemText(r.lists[0]));
    }
  }

  lemma XLacksBrace(r: Snapshot)
    requires BraceFree(r.comp) && BraceFree(r.read)
    ensures '{' !in Head(r) + "[" + Sanitize(r.comp) + "] read=[" + Sanitize(r.read) + "] data="
  {
    HeadFacts(r);
    Sanitized(r.comp);
    Sanitized(r.read);
  }

  lemma {:induction false} FoundZero(x: string, blocks: seq<(nat, string)>, fields: string, items: string)
    requires '{' !in x && blocks != [] && blocks[0].0 == 0 && Carries(blocks[0].1, fields, items)
    ensures var line := x + PrintBlocks(blocks, 0);
            Find(line, "#0{") == Some(|x|) && ExtractBetween(line[|x|..], "items=[", ']') == Some(items)
  {
    var (block, tail) := (blocks[0].1, PrintBlocks(blocks, 1));
    FirstBlock(blocks);
    MarkFacts(0);
    var mark := "#" + Decimal(0) + "{";
    ZeroMarkAt(x, 0, block + tail);
    Regroup(x, mark, block + tail);
    Regroup(x, "#" + Decimal(0), "{");
    Regroup(x, "#", Decimal(0));
    ItemsField(mark, fields, items, tail);
    BehindFront(x, PrintBlocks(blocks, 0));
  }

  // ----- the error marker -----

  ghost predicate FirstFree(items: seq<Option<string>>, n: nat)
    requires n <= |items|
  {
    forall i :: 0 <= i < n && items[i].Some? ==> Free(Sanitize(items[i].value))
  }

  lemma {:induction false} ItemsFreeIff(items: seq<Option<string>>, n: nat)
    requires n <= |items|
    ensures Free(PrintItems(items, n)) <==> FirstFree(items, n)
  {
    if n > 0 {
      ItemsFreeIff(items, n - 1);
      var front := PrintItems(items, n - 1);
      match items[n - 1]
      case None => assert front + "" == front;
      case Some(t) => LastFreeIff(front, Sanitize(t), n - 1);
    }
  }

  lemma {:induction false} LastFreeIff(front: string, text: string, i: nat)
    requires i == 0 ==> front == ""
    ensures Free(front + ((if i > 0 then "|" else "") + text)) <==> Free(front) && Free(text)
  {
    if i == 0 {
      assert "" + ("" + text) == text;
      NoDoubleR("");
    } else {
      Regroup(front, "|", text);
      FoundOnOneSide(front, '|', text, "err=");
    }
  }

  lemma ItemTextFreeIff(l: CandList)
    ensures Free(ItemText(l)) <==> ItemsFree(l.items)
  {
    ItemsFreeIff(l.items, |l.items|);
    var printed := PrintItems(l.items, |l.items|);
    NoDoubleR("...");
    FoundOnOneSide(printed, '|', "...", "err=");
    assert printed + "|..." == printed + "|" + "...";
    assert printed + "" == printed;
  }

  ghost predicate BlocksFree(blocks: seq<(nat, string)>, k: nat) {
    forall i :: k <= i < |blocks| ==> Free(blocks[i].1)
  }

  lemma {:induction false} BlocksFreeStep(blocks: seq<(nat, string)>, k: nat)
    requires k < |blocks|
    ensures BlocksFree(blocks, k) <==> Free(blocks[k].1) && BlocksFree(blocks, k + 1)
  {
  }

  /** `x` stands for the printed text since the last separator. */
  lemma {:induction false} BlocksFreeIff(blocks: seq<(nat, string)>, k: nat, x: string)
    requires k <= |blocks| && Name(x)
    requires forall i :: k <= i < |blocks| ==> blocks[i].1 != "" && blocks[i].1[|blocks[i].1| - 1] == '}'
    ensures Free(x + PrintBlocks(blocks, k)) <==> BlocksFree(blocks, k)
    decreases |blocks| - k
  {
    if k == |blocks| {
      NoDoubleR(x);
      assert x + "" == x;
    } else {
      BlocksFreeIff(blocks, k + 1, "");
      var more := PrintBlocks(blocks, k + 1);
      assert "" + more == more;
      BlockStep(blocks, k, x);
      BlockFreeIff(x, Bar(k), blocks[k].0, blocks[k].1, more);
      BlocksFreeStep(blocks, k);
    }
  }

  lemma {:induction false} BlockFreeIff(x: string, bar: string, n: nat, block: string, more: string)
    requires Name(x) && bar in {"", ";"} && block != "" && block[|block| - 1] == '}'
    ensures Free(x + bar + "#" + Decimal(n) + "{" + (block + more)) <==> Free(block) && Free(more)
  {
    MarkFree(x, bar, n);
    FoundOnOneSide(x + bar + "#" + Decimal(n), '{', block + more, "err=");
    BraceSplits(block, more);
  }

  lemma MarkFree(x: string, bar: string, n: nat)
    requires Name(x) && bar in {"", ";"}
    ensures Free(x + bar + "#" + Decimal(n))
  {
    var mark := x + bar + "#" + Decimal(n);
    forall i | 0 <= i < |mark| - 1 && mark[i] == 'r'
      ensures mark[i + 1] != 'r'
    {
      assert i < |x|;
    }
    NoDoubleR(mark);
  }

  lemma BraceSplits(block: string, more: string)
    requires block != "" && block[|block| - 1] == '}'
    ensures Free(block + more) <==> Free(block) && Free(more)
  {
    var front := block[..|block| - 1];
    assert block + more == front + "}" + more && block == front + "}" + "";
    FoundOnOneSide(front, '}', more, "err=");
    FoundOnOneSide(front, '}', "", "err=");
    NoDoubleR("");
  }

  lemma BehindFree(l: CandList)
    ensures Behind(l) != "" && Behind(l)[|Behind(l)| - 1] == '}'
    ensures Free(Behind(l)) <==> ItemsFree(l.items)
  {
    ListFieldFacts(l);
    ItemTextFreeIff(l);
    BehindFreeIff(Join(ListFields(l), ' '), ItemText(l));
  }

  lemma BehindFreeIff(fields: string, items: string)
    requires Free(fields)
    ensures Free(fields + "[" + items + "]}") <==> Free(items)
  {
    FoundOnOneSide(fields, '[', items + "]" + "}", "err=");
    FoundOnOneSide(items, ']', "}", "err=");
    NoDoubleR("}");
    assert fields + "[" + items + "]}" == fields + "[" + (items + "]" + "}");
  }

  lemma LayoutFreeIff(head: string, comp: string, read: string, data: string)
    requires Free(head)
    ensures Free(Layout(head, comp, AfterRead(read, data))) <==> Free(comp) && Free(read) && Free(" data=" + data)
  {
    var afterRead := AfterRead(read, data);
    FoundOnOneSide(head, '[', AfterComp(comp, afterRead), "err=");
    FoundOnOneSide(comp, ']', " read=" + "[" + afterRead, "err=");
    FoundOnOneSide(" read=", '[', afterRead, "err=");
    NoDoubleR(" read=");
    FoundOnOneSide(read, ']', " data=" + data, "err=");
  }

  lemma DataFieldFreeIff(data: string)
    ensures Free(" data=" + data) <==> Free("data=" + data)
  {
    FoundOnOneSide("", ' ', "data=" + data, "err=");
    NoDoubleR("");
    assert "" + " " == " " && " data=" == " " + "data=";
    Regroup(" ", "data=", data);
  }

  lemma NoneIsFree()
    ensures Free("data=" + "none")
  {
    NoDoubleR("data=none");
    assert "data=" + "none" == "data=none";
  }

  lemma BlocksAreFree(lists: seq<CandList>)
    ensures forall k :: 0 <= k < |lists| ==>
              var b := Blocks(lists)[k].1;
              b != "" && b[|b| - 1] == '}' && (Free(b) <==> ItemsFree(lists[k].items))
  {
    forall k | 0 <= k < |lists|
      ensures var b := Blocks(lists)[k].1;
              b != "" && b[|b| - 1] == '}' && (Free(b) <==> ItemsFree(lists[k].items))
    {
      BehindFree(lists[k]);
    }
  }

  lemma {:induction false} DataFreeIff(r: Snapshot)
    ensures Free(" data=" + Data(r)) <==> forall k :: 0 <= k < |r.lists| ==> ItemsFree(r.lists[k].items)
  {
    DataFieldFreeIff(Data(r));
    if r.lists == [] {
      NoneIsFree();
    } else {
      var blocks := Blocks(r.lists);
      BlocksAreFree(r.lists);
      BlocksFreeIff(blocks, 0, "data=");
      assert forall k :: 0 <= k < |r.lists| ==> (Free(blocks[k].1) <==> ItemsFree(r.lists[k].items));
    }
  }

  lemma BodyFreeIff(r: Snapshot)
    ensures Free(Body(r)) <==> AllFree(r)
  {
    BodyLayout(r);
    HeadFacts(r);
    LayoutFreeIff(Head(r), Sanitize(r.comp), Sanitize(r.read), Data(r));
    DataFreeIff(r);
  }

  // ----- the items -----

  lemma {:induction false} KeepConcat(a: seq<string>, b: seq<string>)
    ensures Keep(a + b) == Keep(a) + Keep(b)
  {
    if a == [] {
      assert a + b == b;
    } else {
      KeepConcat(a[1..], b);
      assert (a + b)[1..] == a[1..] + b;
      Regroup(if Kept(a[0]) then [a[0]] else [], Keep(a[1..]), Keep(b));
    }
  }

  lemma {:induction false} KeepSplits(s: string)
    requires '|' in s
    ensures var (n, rest) := (IndexOf(s, '|'), s[IndexOf(s, '|') + 1..]);
            && Keep(Split(s, '|')) == Keep([s[..n]]) + Keep(Split(rest, '|'))
            && Keep(GetlineSplit(s, '|')) == Keep([s[..n]]) + Keep(GetlineSplit(rest, '|'))
  {
    var (n, rest) := (IndexOf(s, '|'), s[IndexOf(s, '|') + 1..]);
    KeepConcat([s[..n]], Split(rest, '|'));
    KeepConcat([s[..n]], GetlineSplit(rest, '|'));
  }

  /** Both splitters give the same tokens once empty ones are dropped. */
  lemma {:induction false} SplittersAgree(s: string)
    ensures Keep(GetlineSplit(s, '|')) == Keep(Split(s, '|'))
    decreases |s|
  {
    if '|' in s {
      KeepSplits(s);
      SplittersAgree(s[IndexOf(s, '|') + 1..]);
    } else if s == "" {
      assert Split(s, '|') == [""];
      assert [""][1..] == [];
    }
  }

  function Tokens(s: string): seq<string> {
    Keep(Split(s, '|'))
  }

  lemma BarTokens(a: string, b: string)
    ensures Tokens(a + "|" + b) == Tokens(a) + Tokens(b)
  {
    SplitConcat(a, '|', b);
    KeepConcat(Split(a, '|'), Split(b, '|'));
  }

  lemma OneToken(t: string)
    requires '|' !in t
    ensures Tokens(t) == Keep([t]) == if Kept(t) then [t] else []
  {
    assert [t][1..] == [];
  }

  /** Splitting the printed items gives back the printed texts. */
  lemma {:induction false} ItemTokens(items: seq<Option<string>>, n: nat)
    requires n <= |items|
    ensures Tokens(PrintItems(items, n)) == Keep(Texts(items[..n]))
  {
    if n == 0 {
      OneToken("");
    } else {
      ItemTokens(items, n - 1);
      assert items[..n][..n - 1] == items[..n - 1];
      var front, texts := PrintItems(items, n - 1), Texts(items[..n - 1]);
      match items[n - 1]
      case None =>
        assert front + "" == front && texts + [] == texts;
      case Some(t) =>
        Sanitized(t);
        LastToken(front, texts, Sanitize(t), n - 1);
    }
  }

  lemma LastToken(front: string, texts: seq<string>, text: string, i: nat)
    requires '|' !in text && Tokens(front) == Keep(texts) && (i == 0 ==> front == "" && texts == [])
    ensures Tokens(front + ((if i > 0 then "|" else "") + text)) == Keep(texts + [text])
  {
    OneToken(text);
    KeepConcat(texts, [text]);
    if i == 0 {
      assert "" + ("" + text) == text && [] + [text] == [text];
    } else {
      Regroup(front, "|", text);
      BarTokens(front, text);
    }
  }

  lemma ItemTextTokens(l: CandList)
    ensures Tokens(ItemText(l)) == Keep(Texts(l.items))
  {
    ItemTokens(l.items, |l.items|);
    assert l.items[..|l.items|] == l.items;
    EllipsisTokens(PrintItems(l.items, |l.items|), l.count > 8);
  }

  lemma {:induction false} EllipsisTokens(printed: string, more: bool)
    ensures Tokens(printed + (if more then "|..." else "")) == Tokens(printed)
  {
    if more {
      BarTokens(printed, "...");
      OneToken("...");
      assert "|..." == "|" + "...";
      Regroup(printed, "|", "...");
    } else {
      assert printed + "" == printed;
    }
  }

  // ----- the round trip -----

  function FirstTexts(r: Snapshot): seq<string> {
    if r.lists == [] then [] else Keep(Texts(r.lists[0].items))
  }

  function Take(s: seq<string>, n: nat): seq<string> {
    if |s| > n then s[..n] else s
  }

  lemma StartsRight(r: Snapshot)
    ensures "CAND_RET " <= Body(r)
  {
    HeadFacts(r);
    BodyLayout(r);
  }

  lemma NoTokens()
    ensures Tokens("") == []
  {
    OneToken("");
  }

  lemma {:induction false} RustParses(line: string, comp: string, read: string, raw: Option<string>, maxCandidates: nat)
    requires "CAND_RET " <= line && ExtractBetween(line, "comp=[", ']') == Some(comp)
    requires ExtractBetween(line, "read=[", ']') == Some(read) && ExtractBetween(line, "items=[", ']') == raw
    ensures RustParse(line, maxCandidates)
            == if Free(line) then Some(Parsed(comp, read, Take(Tokens(OrEmpty(raw)), maxCandidates))) else None
  {
  }

  lemma {:induction false} CppParses(line: string, comp: string, read: string, raw: string)
    requires "CAND_RET " <= line && ExtractBetween(line, "comp=[", ']') == Some(comp)
    requires ExtractBetween(line, "read=[", ']') == Some(read)
    requires var p := Find(line, "#0{"); p.Some? ==> ExtractBetween(line[p.value..], "items=[", ']') == Some(raw)
    ensures CppParse(line)
            == if Free(line) then Some(Parsed(comp, read, if Find(line, "#0{").Some? then Tokens(raw) else []))
               else None
  {
    SplittersAgree(raw);
  }

  /**
   * For texts without square brackets the Rust parser accepts a printed reply exactly when no printed text contains
   * `err=`, and then gets back composition, reading and the first list's items (empty ones and a literal `...` are
   * dropped, and the request's limit applies).
   */
  lemma {:induction false} RustRoundTrip(r: Snapshot, maxCandidates: nat)
    requires Extractable(r)
    ensures RustParse(Body(r), maxCandidates)
            == if AllFree(r) then Some(Parsed(Sanitize(r.comp), Sanitize(r.read), Take(FirstTexts(r), maxCandidates)))
               else None
  {
    BodyFreeIff(r);
    StartsRight(r);
    CompAndReading(r);
    FirstItems(r);
    NoTokens();
    if r.lists == [] {
      RustParses(Body(r), Sanitize(r.comp), Sanitize(r.read), None, maxCandidates);
    } else {
      ItemTextTokens(r.lists[0]);
      RustParses(Body(r), Sanitize(r.comp), Sanitize(r.read), Some(ItemText(r.lists[0])), maxCandidates);
    }
  }

  /**
   * For texts that are also free of braces the C++ parser gets the same, without a limit, provided list #0 was
   * printed; otherwise it gets no items.
   */
  lemma {:induction false} CppRoundTrip(r: Snapshot)
    requires Extractable(r) && AllBraceFree(r) && Increasing(r)
    ensures CppParse(Body(r))
            == if AllFree(r)
               then Some(Parsed(Sanitize(r.comp), Sanitize(r.read),
                                if r.lists != [] && r.lists[0].idx == 0 then FirstTexts(r) else []))
               else None
  {
    BodyFreeIff(r);
    StartsRight(r);
    CompAndReading(r);
    ListZero(r);
    if r.lists == [] {
      CppParses(Body(r), Sanitize(r.comp), Sanitize(r.read), "");
    } else {
      ItemTextTokens(r.lists[0]);
      CppParses(Body(r), Sanitize(r.comp), Sanitize(r.read), ItemText(r.lists[0]));
    }
  }

  /** The two parsers agree on every accepted reply exactly when list #0 was printed or there is nothing to miss. */
  lemma ParsersAgreeIff(r: Snapshot, maxCandidates: nat)
    requires Extractable(r) && AllBraceFree(r) && Increasing(r) && AllFree(r)
    ensures RustParse(Body(r), maxCandidates).Some? && CppParse(Body(r)).Some?
    ensures var (rust, cpp) := (RustParse(Body(r), maxCandidates).value, CppParse(Body(r)).value);
            && rust.composition == cpp.composition && rust.reading == cpp.reading
            && (rust.items == Take(cpp.items, maxCandidates)
                <==> r.lists == [] || r.lists[0].idx == 0 || FirstTexts(r) == [] || maxCandidates == 0)
  {
    RustRoundTrip(r, maxCandidates);
    CppRoundTrip(r);
  }

  lemma {:induction false} OneTextOnly(items: seq<Option<string>>, text: string)
    requires items == [Some(text)] && Sanitize(text) == text && Kept(text)
    ensures Keep(Texts(items)) == [text]
  {
    assert Texts(items[..0]) == [] && [] + [text] == [text] && [text][1..] == [];
  }

  lemma {:induction false} LaterListFacts(r: Snapshot, text: string)
    requires r.comp == "" && r.read == "" && |r.lists| == 1 && r.lists[0].items == [Some(text)]
    requires Sanitize(text) == text && Kept(text) && BracketFree(text) && BraceFree(text) && Free(text)
    ensures Extractable(r) && AllBraceFree(r) && AllFree(r) && FirstTexts(r) == [text]
  {
    assert Sanitize("") == "";
    NoDoubleR("");
    OneTextOnly(r.lists[0].items, text);
  }

  /** A snapshot that prints a later list only: the Rust parser gets its text, the C++ parser gets nothing. */
  lemma {:induction false} OnlyALaterList(r: Snapshot, text: string)
    requires r.comp == "" && r.read == "" && |r.lists| == 1 && r.lists[0].idx > 0 && r.lists[0].items == [Some(text)]
    requires Sanitize(text) == text && Kept(text) && BracketFree(text) && BraceFree(text) && Free(text)
    ensures RustParse(Body(r), 9) == Some(Parsed("", "", [text])) && CppParse(Body(r)) == Some(Parsed("", "", []))
  {
    LaterListFacts(r, text);
    assert Sanitize("") == "";
    RustRoundTrip(r, 9);
    CppRoundTrip(r);
  }
}
