/** What the reply's text pieces are, measured by reading them back. */
module ReplyLaws {
  import opened Wrappers
  import opened Sequences
  import opened Lines
  import opened TextSearch
  import opened WorkerIds
  import opened CandReply
  import opened ReplyPrinter

  // ----- searching and splitting -----

  ghost predicate OccursAt(s: string, pat: string, k: nat) {
    k + |pat| <= |s| && s[k..k + |pat|] == pat
  }

  lemma OccursBehind(s: string, pat: string, k: nat)
    requires s != "" && k > 0
    ensures OccursAt(s, pat, k) <==> OccursAt(s[1..], pat, k - 1)
  {
    if k + |pat| <= |s| {
      assert s[k..k + |pat|] == s[1..][k - 1..k - 1 + |pat|];
    }
  }

  /** The search finds the first occurrence, if there is one. */
  lemma {:induction false} FindsTheFirst(s: string, pat: string, k: nat)
    ensures var r := Find(s, pat);
            && (r.Some? ==> OccursAt(s, pat, r.value) && (OccursAt(s, pat, k) ==> r.value <= k))
            && (r.None? ==> !OccursAt(s, pat, k))
  {
    if |s| >= |pat| {
      assert s[..|pat|] == s[0..0 + |pat|];
      if s[..|pat|] != pat && s != "" {
        FindsTheFirst(s[1..], pat, if k > 0 then k - 1 else 0);
        if k > 0 {
          OccursBehind(s, pat, k);
        }
        var r := Find(s[1..], pat);
        if r.Some? {
          OccursBehind(s, pat, r.value + 1);
        }
      }
    }
  }

  ghost predicate NoneHas(pieces: seq<string>, c: char) {
    forall i :: 0 <= i < |pieces| ==> c !in pieces[i]
  }

  /** Splitting what was joined gives the pieces back. */
  lemma {:induction false} SplitInvertsJoin(pieces: seq<string>, c: char)
    requires pieces != [] && NoneHas(pieces, c)
    ensures Split(Join(pieces, c), c) == pieces
  {
    if |pieces| == 1 {
      assert pieces == [pieces[0]];
    } else {
      SplitFirst(pieces[0], c, Join(pieces[1..], c));
      SplitInvertsJoin(pieces[1..], c);
      assert pieces == [pieces[0]] + pieces[1..];
    }
  }

  /** And joining what was split gives the text back. */
  lemma {:induction false} JoinInvertsSplit(s: string, c: char)
    ensures Split(s, c) != [] && NoneHas(Split(s, c), c) && Join(Split(s, c), c) == s
    decreases |s|
  {
    var n := IndexOf(s, c);
    FirstIndex(s, c);
    if n < |s| {
      JoinInvertsSplit(s[n + 1..], c);
      var rest := Split(s[n + 1..], c);
      assert ([s[..n]] + rest)[1..] == rest;
      assert s[..n] + [c] + s[n + 1..] == s;
    }
  }

  lemma {:induction false} GetlineStep(s: string, c: char, n: nat, last: seq<string>)
    requires n < |s| && n == IndexOf(s, c) && Split(s[n + 1..], c) == GetlineSplit(s[n + 1..], c) + last
    ensures Split(s, c) == GetlineSplit(s, c) + last
  {
    assert Split(s, c) == [s[..n]] + Split(s[n + 1..], c);
    assert GetlineSplit(s, c) == [s[..n]] + GetlineSplit(s[n + 1..], c);
    Regroup([s[..n]], GetlineSplit(s[n + 1..], c), last);
  }

  /** `getline` gives the same pieces but for an empty one at the end. */
  lemma {:induction false} GetlineDropsTheLastEmpty(s: string, c: char)
    ensures Split(s, c) == GetlineSplit(s, c) + (if s == "" || s[|s| - 1] == c then [""] else [])
    decreases |s|
  {
    var n := IndexOf(s, c);
    if n < |s| {
      var rest := s[n + 1..];
      GetlineDropsTheLastEmpty(rest, c);
      assert s[|s| - 1] == if rest == "" then c else rest[|rest| - 1];
      GetlineStep(s, c, n, if rest == "" || rest[|rest| - 1] == c then [""] else []);
    } else if s != "" {
      assert s[|s| - 1] in s;
    }
  }

  /** Only empty tokens and the ellipsis are dropped. */
  lemma {:induction false} WhatIsKept(tokens: seq<string>, t: string)
    ensures Keep(tokens + [t]) == Keep(tokens) + (if t == "" || t == "..." then [] else [t])
  {
    KeepConcat(tokens, [t]);
    assert [t][1..] == [];
  }

  /** Separators and line ends become blanks, every other character stays. */
  lemma WhatSanitizingChanges(s: string, i: nat)
    requires i < |s|
    ensures |Sanitize(s)| == |s|
    ensures s[i] in {'|', ';', '\r', '\n'} ==> Sanitize(s)[i] == ' '
    ensures s[i] !in {'|', ';', '\r', '\n'} ==> Sanitize(s)[i] == s[i]
  {
  }

  /** Both parsers refuse a line without the prefix, or with an error mark anywhere. */
  lemma WhatIsRefused(line: string, maxCandidates: nat, k: nat)
    requires !("CAND_RET " <= line) || OccursAt(line, "err=", k)
    ensures RustParse(line, maxCandidates) == None && CppParse(line) == None
  {
    FindsTheFirst(line, "err=", k);
  }

  /** Every other line is accepted by both, whatever fields it has. */
  lemma WhatIsAccepted(line: string, maxCandidates: nat)
    requires "CAND_RET " <= line && forall k :: !OccursAt(line, "err=", k)
    ensures RustParse(line, maxCandidates).Some? && CppParse(line).Some?
  {
    FindsTheFirst(line, "err=", 0);
  }

  // ----- the numbers of the reply -----

  function SignedValue(s: string): int {
    if s != "" && s[0] == '-' then -(Value(s[1..]) as int) else Value(s)
  }

  /** The field is its name and this number. */
  ghost predicate Reads(field: string, name: string, n: int) {
    name <= field && SignedValue(field[|name|..]) == n
  }

  lemma {:induction false} FieldReads(name: string, text: string, n: int)
    requires ' ' !in name && ' ' !in text && SignedValue(text) == n
    ensures Reads(name + text, name, n) && ' ' !in name + text
  {
    BehindFront(name, text);
  }

  lemma {:induction false} NumberReads(name: string, n: nat)
    requires ' ' !in name
    ensures Reads(name + Decimal(n), name, n) && ' ' !in name + Decimal(n)
  {
    ValueOfDecimal(n);
    FieldReads(name, Decimal(n), n);
  }

  lemma {:induction false} SignedRoundTrip(n: int)
    ensures SignedValue(SignedDecimal(n)) == n && ' ' !in SignedDecimal(n)
  {
    if n < 0 {
      ValueOfDecimal(-n);
      assert SignedDecimal(n)[1..] == Decimal(-n);
    } else {
      ValueOfDecimal(n);
    }
  }

  lemma {:induction false} SignedReads(name: string, n: int)
    requires ' ' !in name
    ensures Reads(name + SignedDecimal(n), name, n) && ' ' !in name + SignedDecimal(n)
  {
    SignedRoundTrip(n);
    FieldReads(name, SignedDecimal(n), n);
  }

  /** The numbers of the head, each under its name. */
  ghost predicate SizeReads(f: seq<string>, i: nat, r: Snapshot)
    requires i < |f|
  {
    match i
    case 1 => Reads(f[1], "cp=", r.cp)
    case 2 => Reads(f[2], "lists=", r.listCount)
    case 3 => Reads(f[3], "totalBytes=", r.totalSize)
    case 4 => Reads(f[4], "compBytes=", r.compBytes)
    case 5 => Reads(f[5], "readBytes=", r.readBytes)
    case _ => true
  }

  lemma {:induction false} HeadFieldsRead(r: Snapshot, i: nat)
    requires i < 7
    ensures SizeReads(HeadFields(r), i, r) && ' ' !in HeadFields(r)[i]
  {
    match i
    case 1 => NumberReads("cp=", r.cp);
    case 2 => NumberReads("lists=", r.listCount);
    case 3 => NumberReads("totalBytes=", r.totalSize);
    case 4 => SignedReads("compBytes=", r.compBytes);
    case 5 => NumberReads("readBytes=", r.readBytes);
    case _ =>
  }

  /** Cut at its blanks, the head of the reply has each number under its own name. */
  lemma {:induction false} HeadReadsBack(r: Snapshot)
    ensures var f := Split(Head(r), ' ');
            && |f| == 7 && f[0] == "CAND_RET" && f[6] == "comp="
            && forall i :: 0 <= i < 7 ==> SizeReads(f, i, r)
  {
    forall i | 0 <= i < 7
      ensures SizeReads(HeadFields(r), i, r) && ' ' !in HeadFields(r)[i]
    {
      HeadFieldsRead(r, i);
    }
    SplitInvertsJoin(HeadFields(r), ' ');
  }

  lemma {:induction false} ListFieldsRead(l: CandList)
    ensures var f := ListFields(l);
            && |f| == 6 && f[0] == (if l.ansi then "enc=A" else "enc=W") && f[5] == "items="
            && Reads(f[1], "count=", l.count) && Reads(f[2], "sel=", l.sel)
            && Reads(f[3], "pageStart=", l.pageStart) && Reads(f[4], "pageSize=", l.pageSize)
    ensures NoneHas(ListFields(l), ' ')
  {
    assert "enc=" + "A" == "enc=A" && "enc=" + "W" == "enc=W";
    NumberReads("count=", l.count);
    NumberReads("sel=", l.sel);
    NumberReads("pageStart=", l.pageStart);
    NumberReads("pageSize=", l.pageSize);
  }

  /** The same for what a list prints in front of its items. */
  lemma {:induction false} ListReadsBack(l: CandList)
    ensures var f := Split(Join(ListFields(l), ' '), ' ');
            && |f| == 6 && f[0] == (if l.ansi then "enc=A" else "enc=W") && f[5] == "items="
            && Reads(f[1], "count=", l.count) && Reads(f[2], "sel=", l.sel)
            && Reads(f[3], "pageStart=", l.pageStart) && Reads(f[4], "pageSize=", l.pageSize)
  {
    ListFieldsRead(l);
    SplitInvertsJoin(ListFields(l), ' ');
  }

  ghost predicate QuietReads(f: seq<string>, i: nat, r: Snapshot)
    requires i < |f|
  {
    match i
    case 1 => Reads(f[1], "count=", 0)
    case 2 => Reads(f[2], "cp=", r.cp)
    case 3 => Reads(f[3], "compBytes=", r.compBytes)
    case 4 => Reads(f[4], "readBytes=", r.readBytes)
    case 5 => Reads(f[5], "lists=", 0)
    case 6 => Reads(f[6], "totalBytes=", 0)
    case _ => true
  }

  lemma {:induction false} QuietFieldsRead(r: Snapshot, i: nat)
    requires i < 8
    ensures QuietReads(QuietFields(r), i, r) && ' ' !in QuietFields(r)[i]
  {
    match i
    case 1 => NumberReads("count=", 0);
    case 2 => NumberReads("cp=", r.cp);
    case 3 => SignedReads("compBytes=", r.compBytes);
    case 4 => NumberReads("readBytes=", r.readBytes);
    case 5 => NumberReads("lists=", 0);
    case 6 => NumberReads("totalBytes=", 0);
    case _ =>
  }

  /** And for the reply without lists. */
  lemma {:induction false} QuietReadsBack(r: Snapshot)
    ensures var f := Split(Join(QuietFields(r), ' '), ' ');
            && |f| == 8 && f[0] == "CAND_RET" && f[7] == "comp="
            && forall i :: 0 <= i < 8 ==> QuietReads(f, i, r)
  {
    forall i | 0 <= i < 8
      ensures QuietReads(QuietFields(r), i, r) && ' ' !in QuietFields(r)[i]
    {
      QuietFieldsRead(r, i);
    }
    SplitInvertsJoin(QuietFields(r), ' ');
  }

  // ----- the items of the reply -----

  /** Cut at its bars, a list's item text has one piece for each printed item, and an ellipsis behind eight of more. */
  lemma ItemsReadBack(l: CandList)
    requires l.items != [] && forall i :: 0 <= i < |l.items| ==> l.items[i].Some?
    ensures Split(ItemText(l), '|') == Texts(l.items) + (if l.count > 8 then ["..."] else [])
  {
    SplitPrinted(l.items, |l.items|);
    assert l.items[..|l.items|] == l.items;
    var printed := PrintItems(l.items, |l.items|);
    if l.count > 8 {
      assert "|..." == "|" + "...";
      Regroup(printed, "|", "...");
      SplitConcat(printed, '|', "...");
    } else {
      assert printed + "" == printed && Texts(l.items) + [] == Texts(l.items);
    }
  }

  lemma {:induction false} SplitPrinted(items: seq<Option<string>>, n: nat)
    requires 0 < n <= |items| && forall i :: 0 <= i < n ==> items[i].Some?
    ensures Split(PrintItems(items, n), '|') == Texts(items[..n])
  {
    var text := Sanitize(items[n - 1].value);
    Sanitized(items[n - 1].value);
    assert items[..n][..n - 1] == items[..n - 1];
    if n == 1 {
      assert "" + ("" + text) == text && [] + [text] == [text] && Texts(items[..0]) == [];
    } else {
      SplitPrinted(items, n - 1);
      Regroup(PrintItems(items, n - 1), "|", text);
      SplitConcat(PrintItems(items, n - 1), '|', text);
    }
  }

  // ----- which lists are printed -----

  /** The short form is printed exactly if the IME claims neither lists nor bytes; both forms end their line. */
  lemma WhichFormIsPrinted(r: Snapshot)
    ensures r.listCount == 0 && r.totalSize == 0 ==> FullReply(r) == QuietBody(r) + "\n"
    ensures r.listCount > 0 || r.totalSize > 0 ==> FullReply(r) == Body(r) + "\n"
  {
  }

  /** As many lists are probed as the IME claims, at most four, and four if it claims none. */
  lemma HowManyAreProbed(n: nat)
    ensures n == 0 ==> ProbeCount(n) == 4
    ensures 1 <= n <= 4 ==> ProbeCount(n) == n
    ensures n > 4 ==> ProbeCount(n) == 4
  {
  }

  /** Printed are the lists that could be fetched, but for large ones without pages behind the first. */
  lemma {:induction false} WhichListsArePrinted(probes: seq<Option<CandList>>, n: nat, l: CandList)
    requires n <= |probes| && WellProbed(probes)
    ensures l in Printed(probes, n)
            <==> l.idx < n && probes[l.idx] == Some(l) && !(l.idx > 0 && l.pageSize == 0 && l.count >= 64)
  {
    if n > 0 {
      WhichListsArePrinted(probes, n - 1, l);
    }
  }
}
