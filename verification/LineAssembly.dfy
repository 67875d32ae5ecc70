/** Newline-terminated lines out of a byte stream: what the two readers of the TCP protocol should deliver. */
module Lines {
  /** The first position of `c`, or the length. */
  function IndexOf(s: string, c: char): (n: nat)
    ensures n <= |s| && (n < |s| ==> s[n] == c)
    ensures c in s <==> n < |s|
  {
    if s == "" || s[0] == c then 0 else assert s == [s[0]] + s[1..]; 1 + IndexOf(s[1..], c)
  }

  /** The complete lines of a stream, without their newlines. */
  function Complete(s: string): seq<string>
    decreases |s|
  {
    var n := IndexOf(s, '\n');
    if n == |s| then [] else [s[..n]] + Complete(s[n + 1..])
  }

  /** What follows the last newline. */
  function Residue(s: string): (r: string)
    ensures |r| <= |s|
    ensures '\n' !in r
    decreases |s|
  {
    var n := IndexOf(s, '\n');
    if n == |s| then s else Residue(s[n + 1..])
  }

  function Concat(chunks: seq<string>): string {
    if chunks == [] then "" else chunks[0] + Concat(chunks[1..])
  }

  lemma {:induction false} IndexOfPrefix(a: string, b: string, c: char)
    ensures IndexOf(a + b, c) == if c in a then IndexOf(a, c) else |a| + IndexOf(b, c)
  {
    if a == "" {
      assert a + b == b;
    } else {
      assert (a + b)[1..] == a[1..] + b;
      assert a == [a[0]] + a[1..];
      IndexOfPrefix(a[1..], b, c);
    }
  }

  lemma FirstLine(a: string, b: string)
    requires '\n' in a
    ensures var n := IndexOf(a, '\n');
            && Complete(a + b) == [a[..n]] + Complete(a[n + 1..] + b)
            && Residue(a + b) == Residue(a[n + 1..] + b)
  {
    var n := IndexOf(a, '\n');
    IndexOfPrefix(a, b, '\n');
    assert (a + b)[n + 1..] == a[n + 1..] + b;
    assert (a + b)[..n] == a[..n];
  }

  /** A stream read in two pieces: the residue of the first piece joins the second. */
  lemma {:induction false} TwoPieces(a: string, b: string)
    ensures Complete(a + b) == Complete(a) + Complete(Residue(a) + b)
    ensures Residue(a + b) == Residue(Residue(a) + b)
    decreases |a|
  {
    if '\n' in a {
      var rest := a[IndexOf(a, '\n') + 1..];
      FirstLine(a, b);
      FirstLine(a, "");
      assert a + "" == a && rest + "" == rest;
      TwoPieces(rest, b);
    }
  }

  function Unlines(lines: seq<string>): string {
    if lines == [] then "" else lines[0] + "\n" + Unlines(lines[1..])
  }

  /** Lines and residue are the stream again, and no line contains a newline. */
  lemma {:induction false} LinesAreTheStream(s: string)
    ensures Unlines(Complete(s)) + Residue(s) == s
    ensures forall i :: 0 <= i < |Complete(s)| ==> '\n' !in Complete(s)[i]
    decreases |s|
  {
    var n := IndexOf(s, '\n');
    if n < |s| {
      LinesAreTheStream(s[n + 1..]);
      FirstIndex(s, '\n');
      NextLineOf(s, n, Unlines(Complete(s[n + 1..])), Residue(s[n + 1..]));
    }
  }

  lemma NextLineOf(s: string, n: nat, lines: string, residue: string)
    requires n < |s| && s[n] == '\n' && lines + residue == s[n + 1..]
    ensures s[..n] + "\n" + lines + residue == s
  {
  }

  lemma {:induction false} FirstIndex(s: string, c: char)
    ensures forall k :: 0 <= k < IndexOf(s, c) ==> s[k] != c
  {
    if s != "" && s[0] != c {
      FirstIndex(s[1..], c);
      forall k | 0 < k < IndexOf(s, c)
        ensures s[k] != c
      {
        assert s[k] == s[1..][k - 1];
      }
    }
  }

  lemma {:induction false} ConcatAppend(chunks: seq<string>, chunk: string)
    ensures Concat(chunks + [chunk]) == Concat(chunks) + chunk
  {
    if chunks == [] {
      assert [chunk][1..] == [] && [] + [chunk] == [chunk];
    } else {
      ConcatAppend(chunks[1..], chunk);
      assert (chunks + [chunk])[1..] == chunks[1..] + [chunk];
    }
  }
}

/** The command host's receive buffer: 8192 bytes, chunks of at most 1024, commands of at most 511. */
module CommandHost {
  import opened Sequences
  import opened Lines

  const RX_BUF_SIZE := 8192
  const CHUNK_SIZE := 1024
  const LINE_SIZE := 512

  function TrimRight(s: string): string {
    if s != "" && s[|s| - 1] in {'\r', ' ', '\t'} then TrimRight(s[..|s| - 1]) else s
  }

  function Clean(line: string): string {
    TrimRight(line[..Min(|line|, LINE_SIZE - 1)])
  }

  /** The command in a line, if there is one. */
  function Command(line: string): seq<string> {
    if Clean(line) == "" then [] else [Clean(line)]
  }

  /** The commands dispatched for these lines: cut, trimmed, blank ones dropped. */
  function Commands(lines: seq<string>): seq<string> {
    if lines == [] then [] else Command(lines[0]) + Commands(lines[1..])
  }

  predicate Blank(c: char) {
    c == '\r' || c == ' ' || c == '\t'
  }

  lemma {:induction false} TrimmedAreBlank(s: string)
    ensures var t := TrimRight(s);
            && t <= s && (t != "" ==> !Blank(t[|t| - 1]))
            && forall i :: |t| <= i < |s| ==> Blank(s[i])
  {
    if s != "" && s[|s| - 1] in {'\r', ' ', '\t'} {
      TrimmedAreBlank(s[..|s| - 1]);
    }
  }

  /**
   * A command is the line up to its 511th character, without the carriage returns, blanks and tabs it ends in;
   * a line of nothing else is no command.
   */
  lemma WhatACommandIs(line: string)
    ensures var cut := if |line| <= 511 then line else line[..511];
            var c := Clean(line);
            && c <= cut && (c != "" ==> !Blank(c[|c| - 1])) && (forall i :: |c| <= i < |cut| ==> Blank(cut[i]))
            && Command(line) == if c == "" then [] else [c]
  {
    TrimmedAreBlank(line[..Min(|line|, LINE_SIZE - 1)]);
  }

  datatype Rx = Rx(connected: bool, residue: string, dispatched: seq<string>)

  const NEW_CLIENT := Rx(true, "", [])

  /** One receive; an empty one means that the peer has closed. */
  function Feed(rx: Rx, chunk: string): Rx {
    if !rx.connected then rx
    else if chunk == "" || |rx.residue| + |chunk| > RX_BUF_SIZE then Rx(false, "", rx.dispatched)
    else
      var text := rx.residue + chunk;
      Rx(true, Residue(text), rx.dispatched + Commands(Complete(text)))
  }

  /** 8192 characters fit the buffer, and no more. */
  lemma BufferLimit(rx: Rx, chunk: string)
    requires rx.connected && chunk != ""
    ensures Feed(rx, chunk).connected <==> |rx.residue| + |chunk| <= 8192
    ensures !Feed(rx, chunk).connected ==> Feed(rx, chunk) == Rx(false, "", rx.dispatched)
    ensures !Feed(rx, "").connected
  {
  }

  function FeedAll(rx: Rx, chunks: seq<string>): Rx
    decreases |chunks|
  {
    if chunks == [] then rx else FeedAll(Feed(rx, chunks[0]), chunks[1..])
  }

  lemma {:induction false} CommandsConcat(a: seq<string>, b: seq<string>)
    ensures Commands(a + b) == Commands(a) + Commands(b)
  {
    if a == [] {
      assert a + b == b;
    } else {
      CommandsConcat(a[1..], b);
      assert (a + b)[1..] == a[1..] + b;
      Regroup(Command(a[0]), Commands(a[1..]), Commands(b));
    }
  }

  lemma {:induction false} FeedAllAppend(rx: Rx, chunks: seq<string>, chunk: string)
    ensures FeedAll(rx, chunks + [chunk]) == Feed(FeedAll(rx, chunks), chunk)
    decreases |chunks|
  {
    if chunks == [] {
      assert [] + [chunk] == [chunk] && [chunk][1..] == [];
    } else {
      FeedAllAppend(Feed(rx, chunks[0]), chunks[1..], chunk);
      assert (chunks + [chunk])[1..] == chunks[1..] + [chunk];
    }
  }

  /** Every chunk has something in it and finds room behind the residue of what came before it. */
  ghost predicate NeverExceeds(chunks: seq<string>) {
    forall k :: 0 <= k < |chunks| ==> Room(chunks, k)
  }

  ghost predicate Room(chunks: seq<string>, k: nat)
    requires k < |chunks|
  {
    chunks[k] != "" && |Residue(Concat(chunks[..k]))| + |chunks[k]| <= RX_BUF_SIZE
  }

  /**
   * The connection survives exactly when no chunk is empty or exceeds the buffer, and then the chunking does not
   * matter: the commands are those of the lines of the whole stream and the residue is its last, unfinished line.
   */
  lemma {:induction false} ChunkingDoesNotMatter(chunks: seq<string>)
    ensures var rx := FeedAll(NEW_CLIENT, chunks);
            && (rx.connected <==> NeverExceeds(chunks))
            && (rx.connected ==> rx.residue == Residue(Concat(chunks)) && '\n' !in rx.residue
                                 && rx.dispatched == Commands(Complete(Concat(chunks))))
    decreases |chunks|
  {
    if chunks != [] {
      var n := |chunks| - 1;
      var front, last := chunks[..n], chunks[n];
      assert chunks == front + [last];
      ChunkingDoesNotMatter(front);
      FeedAllAppend(NEW_CLIENT, front, last);
      ConcatAppend(front, last);
      var rx := FeedAll(NEW_CLIENT, front);
      forall k | 0 <= k < n
        ensures Room(chunks, k) <==> Room(front, k)
      {
        assert chunks[..k] == front[..k];
      }
      assert Room(chunks, n) <==> last != "" && |Residue(Concat(front))| + |last| <= RX_BUF_SIZE;
      if rx.connected && Room(chunks, n) {
        TwoPieces(Concat(front), last);
        CommandsConcat(Complete(Concat(front)), Complete(rx.residue + last));
      }
    }
  }

  /** No place in the stream has an unfinished line so long that the next receive could overflow the buffer. */
  ghost predicate Safe(s: string) {
    forall p :: 0 <= p < |s| ==> SafeAt(s, p)
  }

  ghost predicate SafeAt(s: string, p: nat)
    requires p < |s|
  {
    |Residue(s[..p])| + Min(CHUNK_SIZE, |s| - p) <= RX_BUF_SIZE
  }

  ghost predicate Received(chunks: seq<string>) {
    forall k :: 0 <= k < |chunks| ==> 1 <= |chunks[k]| <= 1024
  }

  lemma {:induction false} ConcatSplit(chunks: seq<string>, k: nat)
    requires k < |chunks|
    ensures var (p, s) := (|Concat(chunks[..k])|, Concat(chunks));
            p + |chunks[k]| <= |s| && s[..p] == Concat(chunks[..k])
  {
    if k == 0 {
      assert chunks[..0] == [];
    } else {
      ConcatSplit(chunks[1..], k - 1);
      assert chunks[..k][1..] == chunks[1..][..k - 1];
      assert chunks[..k][0] == chunks[0];
    }
  }

  /** A safe stream gets through however it is cut into receives. */
  lemma SafeStreamSurvives(chunks: seq<string>)
    requires Received(chunks) && Safe(Concat(chunks))
    ensures FeedAll(NEW_CLIENT, chunks).connected
  {
    ChunkingDoesNotMatter(chunks);
    forall k | 0 <= k < |chunks|
      ensures Room(chunks, k)
    {
      ConcatSplit(chunks, k);
      var p := |Concat(chunks[..k])|;
      assert SafeAt(Concat(chunks), p);
    }
  }

  function Singles(s: string): (chunks: seq<string>)
    ensures |chunks| == |s|
    ensures forall k :: 0 <= k < |s| ==> chunks[k] == [s[k]]
  {
    seq(|s|, i requires 0 <= i < |s| => [s[i]])
  }

  lemma {:induction false} ConcatSingles(s: string)
    ensures Concat(Singles(s)) == s
  {
    if s != "" {
      ConcatSingles(s[1..]);
      assert Singles(s)[1..] == Singles(s[1..]);
    }
  }

  /** An unsafe stream is cut off by some sequence of receives, so safety is exactly what a sender must ensure. */
  lemma UnsafeStreamCanBeCutOff(s: string) returns (chunks: seq<string>)
    requires !Safe(s)
    ensures Received(chunks) && Concat(chunks) <= s && !FeedAll(NEW_CLIENT, chunks).connected
  {
    var p: nat :| p < |s| && !SafeAt(s, p);
    var n := Min(CHUNK_SIZE, |s| - p);
    var chunk := s[p..p + n];
    chunks := Singles(s[..p]) + [chunk];
    ConcatSingles(s[..p]);
    ConcatAppend(Singles(s[..p]), chunk);
    assert s[..p] + chunk == s[..p + n];
    assert chunks[..p] == Singles(s[..p]);
    assert !Room(chunks, p);
    ChunkingDoesNotMatter(chunks);
  }

  lemma OneLine(line: string)
    requires '\n' !in line
    ensures Complete(line + "\n") == [line] && Residue(line + "\n") == ""
  {
    IndexOfPrefix(line, "\n", '\n');
    assert (line + "\n")[..|line|] == line && (line + "\n")[|line| + 1..] == "";
  }

  lemma NoLine(line: string)
    requires '\n' !in line
    ensures Complete(line) == [] && Residue(line) == line
  {
  }

  /** What one more byte does to the lines, given that the unfinished one starts at `start`. */
  lemma NextByte(text: string, start: nat, i: nat)
    requires start <= i < |text| && text[start..i] == Residue(text[..i])
    ensures Residue(text[..i + 1]) == if text[i] == '\n' then "" else text[start..i + 1]
    ensures Complete(text[..i + 1]) == Complete(text[..i]) + (if text[i] == '\n' then [text[start..i]] else [])
  {
    var line := text[start..i];
    assert text[..i + 1] == text[..i] + [text[i]];
    assert text[start..i + 1] == line + [text[i]];
    TwoPieces(text[..i], [text[i]]);
    if text[i] == '\n' {
      OneLine(line);
    } else {
      NoLine(line + [text[i]]);
    }
  }

  lemma CommandsAppend(lines: seq<string>, line: string)
    ensures Commands(lines + [line]) == Commands(lines) + (if Clean(line) == "" then [] else [Clean(line)])
  {
    CommandsConcat(lines, [line]);
    assert [line][1..] == [];
  }

  /** The scan loop as a function: where the unfinished line of `text[..i]` starts and the commands so far. */
  function Scan(text: string, i: nat): (r: (nat, seq<string>))
    requires i <= |text|
    ensures r.0 <= i
  {
    if i == 0 then (0, [])
    else
      var (start, commands) := Scan(text, i - 1);
      if text[i - 1] != '\n' then (start, commands)
      else
        var command := Clean(text[start..i - 1]);
        (i, if command == "" then commands else commands + [command])
  }

  lemma {:induction false} ScanFindsTheLines(text: string, i: nat)
    requires i <= |text|
    ensures var (start, commands) := Scan(text, i);
            text[start..i] == Residue(text[..i]) && commands == Commands(Complete(text[..i]))
  {
    if i > 0 {
      ScanFindsTheLines(text, i - 1);
      var (start, commands) := Scan(text, i - 1);
      NextByte(text, start, i - 1);
      if text[i - 1] == '\n' {
        CommandsAppend(Complete(text[..i - 1]), text[start..i - 1]);
      } else {
        assert Complete(text[..i]) == Complete(text[..i - 1]);
      }
    }
  }

  // ----- the host's buffer, in place -----

  class Host {
    const rxBuf: array<char>
    var rxLen: nat
    var connected: bool
    var dispatched: seq<string>

    ghost predicate Valid()
      reads this, rxBuf
    {
      rxBuf.Length == RX_BUF_SIZE && rxLen <= RX_BUF_SIZE && '\n' !in rxBuf[..rxLen] && (!connected ==> rxLen == 0)
    }

    ghost function Abs(): Rx
      reads this, rxBuf
      requires Valid()
    {
      Rx(connected, rxBuf[..rxLen], dispatched)
    }

    constructor ()
      ensures Valid() && Abs() == NEW_CLIENT && fresh(rxBuf)
    {
      rxBuf := new char[RX_BUF_SIZE];
      rxLen, connected, dispatched := 0, true, [];
    }

    /** Copies a line out of the buffer, cuts it to 511 bytes and strips trailing blanks. */
    method TakeLine(start: nat, end: nat) returns (command: string)
      requires start <= end <= rxBuf.Length
      ensures command == Clean(rxBuf[start..end])
    {
      var line := new char[LINE_SIZE];
      var len := end - start;
      if len >= LINE_SIZE {
        len := LINE_SIZE - 1;
      }
      var j := 0;
      while j < len
        invariant j <= len
        invariant line[..j] == rxBuf[start..start + j]
      {
        line[j] := rxBuf[start + j];
        j := j + 1;
      }
      assert rxBuf[start..end][..len] == rxBuf[start..start + len];
      while len > 0 && (line[len - 1] == '\r' || line[len - 1] == ' ' || line[len - 1] == '\t')
        invariant len < LINE_SIZE
        invariant TrimRight(line[..len]) == Clean(rxBuf[start..end])
      {
        assert line[..len][..len - 1] == line[..len - 1];
        len := len - 1;
      }
      command := line[..len];
    }

    /** `memmove(rx_buf, rx_buf + start, remain)`. */
    method MoveDown(start: nat, remain: nat)
      requires start + remain <= rxBuf.Length
      modifies rxBuf
      ensures rxBuf[..remain] == old(rxBuf[start..start + remain])
    {
      var j := 0;
      while j < remain
        invariant j <= remain
        invariant rxBuf[..j] == old(rxBuf[start..start + j])
        invariant forall k :: j <= k < rxBuf.Length ==> rxBuf[k] == old(rxBuf[k])
      {
        rxBuf[j] := rxBuf[start + j];
        j := j + 1;
      }
    }

    /** The scan of `process_rx_buffer`: the commands of all complete lines, and where the last one ended. */
    method ScanLines() returns (start: nat, commands: seq<string>)
      requires rxBuf.Length == RX_BUF_SIZE && rxLen <= RX_BUF_SIZE
      ensures start <= rxLen && rxBuf[start..rxLen] == Residue(rxBuf[..rxLen])
      ensures commands == Commands(Complete(rxBuf[..rxLen]))
    {
      ghost var text := rxBuf[..rxLen];
      var i, n := 0, rxLen;
      start, commands := 0, [];
      while i < n
        invariant start <= i <= n
        invariant (start, commands) == Scan(text, i)
      {
        if rxBuf[i] == '\n' {
          SliceOfPrefix(rxBuf[..], n, start, i);
          var command := TakeLine(start, i);
          if command != "" {
            commands := commands + [command];
          }
          start := i + 1;
        }
        i := i + 1;
      }
      ScanFindsTheLines(text, n);
      SliceOfPrefix(rxBuf[..], n, start, n);
      assert text[..n] == text;
    }

    method ProcessRxBuffer()
      requires rxBuf.Length == RX_BUF_SIZE && rxLen <= RX_BUF_SIZE
      modifies this`rxLen, this`dispatched, rxBuf
      ensures connected == old(connected) && rxLen <= old(rxLen)
      ensures rxBuf[..rxLen] == Residue(old(rxBuf[..rxLen]))
      ensures dispatched == old(dispatched) + Commands(Complete(old(rxBuf[..rxLen])))
    {
      var start, commands := ScanLines();
      dispatched := dispatched + commands;
      if start > 0 {
        var remain := rxLen - start;
        if remain > 0 {
          MoveDown(start, remain);
        }
        rxLen := remain;
      }
    }

    method ServiceClientIo(chunk: string)
      requires Valid() && connected && |chunk| <= CHUNK_SIZE
      modifies this, rxBuf
      ensures Valid() && Abs() == Feed(old(Abs()), chunk)
    {
      ghost var before := rxBuf[..rxLen];
      if chunk == "" {
        connected, rxLen := false, 0;
        return;
      }
      if rxLen + |chunk| > RX_BUF_SIZE {
        connected, rxLen := false, 0;
        return;
      }
      var j := 0;
      while j < |chunk|
        invariant 0 <= j <= |chunk| && rxLen == old(rxLen) && connected && dispatched == old(dispatched)
        invariant rxBuf[..rxLen + j] == before + chunk[..j]
      {
        rxBuf[rxLen + j] := chunk[j];
        j := j + 1;
      }
      rxLen := rxLen + |chunk|;
      assert rxBuf[..rxLen] == before + chunk;
      ProcessRxBuffer();
    }
  }
}

/** The C++ client's line reader: an unbounded string, one trailing carriage return dropped per line. */
module LineReaders {
  import opened Wrappers
  import opened Sequences
  import opened Lines

  function StripCr(line: string): string {
    if line != "" && line[|line| - 1] == '\r' then line[..|line| - 1] else line
  }

  /** Exactly one carriage return at the end is dropped. */
  lemma WhatIsStripped(line: string)
    ensures StripCr(line + "\r") == line
    ensures line == "" || line[|line| - 1] != '\r' ==> StripCr(line) == line
  {
  }

  function StripAll(lines: seq<string>): (r: seq<string>)
    ensures |r| == |lines|
  {
    seq(|lines|, i requires 0 <= i < |lines| => StripCr(lines[i]))
  }

  class Reader {
    var rx: string
    var pending: seq<string>  // what further receives will deliver, then end of stream

    ghost function Ahead(): string
      reads this
    {
      rx + Concat(pending)
    }

    constructor (chunks: seq<string>)
      ensures rx == "" && pending == chunks
    {
      rx, pending := "", chunks;
    }

    /** The first line of everything ahead, however it is split between buffer and receives. */
    method ReadLine() returns (line: Option<string>)
      modifies this
      ensures '\n' in old(Ahead()) ==>
                var n := IndexOf(old(Ahead()), '\n');
                line == Some(StripCr(old(Ahead())[..n])) && Ahead() == old(Ahead())[n + 1..]
      ensures '\n' !in old(Ahead()) ==> line == None && Ahead() == old(Ahead()) && pending == []
    {
      while true
        invariant Ahead() == old(Ahead())
        decreases |pending|
      {
        IndexOfPrefix(rx, Concat(pending), '\n');
        var nl := IndexOf(rx, '\n');
        if nl != |rx| {
          var text := rx[..nl];
          assert Ahead()[..nl] == text && Ahead()[nl + 1..] == rx[nl + 1..] + Concat(pending);
          rx := rx[nl + 1..];
          if text != "" && text[|text| - 1] == '\r' {
            text := text[..|text| - 1];
          }
          return Some(text);
        }
        if pending == [] {
          return None;
        }
        assert rx + Concat(pending) == rx + pending[0] + Concat(pending[1..]);
        rx, pending := rx + pending[0], pending[1..];
      }
    }

    /** All lines of the stream: the chunking of the receives does not show. */
    method ReadAll() returns (lines: seq<string>)
      modifies this
      ensures lines == StripAll(Complete(old(Ahead())))
      ensures rx == Residue(old(Ahead())) && pending == []
    {
      ghost var stream := Ahead();
      ghost var raw: seq<string> := [];
      lines := [];
      while true
        invariant ReadSoFar(stream, raw, lines, Ahead())
        decreases |Ahead()|
      {
        ghost var before := Ahead();
        var n := ReadLine();
        if n.None? {
          NothingLeft(stream, raw, lines, before);
          return;
        }
        lines := lines + [n.value];
        NextLine(stream, raw, lines[..|lines| - 1], before);
        raw := raw + [before[..IndexOf(before, '\n')]];
      }
    }
  }

  /** `raw` are the lines read of `stream`, `lines` what was made of them, `ahead` the rest. */
  ghost predicate ReadSoFar(stream: string, raw: seq<string>, lines: seq<string>, ahead: string) {
    lines == StripAll(raw) && raw + Complete(ahead) == Complete(stream) && Residue(ahead) == Residue(stream)
  }

  lemma StripOneMore(raw: seq<string>, line: string)
    ensures StripAll(raw + [line]) == StripAll(raw) + [StripCr(line)]
  {
  }

  lemma {:induction false} NextComplete(s: string)
    requires '\n' in s
    ensures var n := IndexOf(s, '\n');
            Complete(s) == [s[..n]] + Complete(s[n + 1..]) && Residue(s) == Residue(s[n + 1..])
  {
  }

  lemma NextLine(stream: string, raw: seq<string>, lines: seq<string>, ahead: string)
    requires ReadSoFar(stream, raw, lines, ahead) && '\n' in ahead
    ensures var n := IndexOf(ahead, '\n');
            ReadSoFar(stream, raw + [ahead[..n]], lines + [StripCr(ahead[..n])], ahead[n + 1..])
  {
    var n := IndexOf(ahead, '\n');
    NextComplete(ahead);
    StripOneMore(raw, ahead[..n]);
    Regroup(raw, [ahead[..n]], Complete(ahead[n + 1..]));
  }

  lemma NothingLeft(stream: string, raw: seq<string>, lines: seq<string>, ahead: string)
    requires ReadSoFar(stream, raw, lines, ahead) && '\n' !in ahead
    ensures lines == StripAll(Complete(stream)) && ahead == Residue(stream)
  {
    assert raw + [] == raw;
  }
}

/** The Rust host's line reader: byte by byte, every carriage return dropped, a last line without its end kept. */
module RustReaders {
  import opened Sequences
  import Frames

  datatype LineResult = Got(text: string) | Ended | TooLong

  function ReadFrom(s: string, out: string): (LineResult, string) {
    if s == "" then (if out == "" then Ended else Got(out), "")
    else if s[0] == '\n' then (Got(out), s[1..])
    else
      var more := if s[0] == '\r' then out else out + [s[0]];
      if |more| > Frames.MAX_FRAME_BYTES then (TooLong, s[1..]) else ReadFrom(s[1..], more)
  }

  function WithoutCr(s: string): string {
    if s == "" then "" else (if s[0] == '\r' then "" else [s[0]]) + WithoutCr(s[1..])
  }

  lemma {:induction false} NothingToDrop(s: string)
    requires '\r' !in s
    ensures WithoutCr(s) == s
  {
    if s != "" {
      NothingToDrop(s[1..]);
    }
  }

  lemma {:induction false} OthersAreKept(s: string, t: string)
    ensures WithoutCr(s + "\r" + t) == WithoutCr(s) + WithoutCr(t) && '\r' !in WithoutCr(s)
  {
    if s == "" {
      assert s + "\r" + t == "\r" + t && ("\r" + t)[1..] == t;
    } else {
      assert (s + "\r" + t)[1..] == s[1..] + "\r" + t;
      OthersAreKept(s[1..], t);
    }
  }

  /** A line that is not too long is read without its carriage returns, up to its end or the stream's. */
  lemma {:induction false} ReadsTheLine(body: string, tail: string, out: string)
    requires '\n' !in body && |out| + |WithoutCr(body)| <= 262144
    requires tail == "" || tail[0] == '\n'
    ensures var line := out + WithoutCr(body);
            ReadFrom(body + tail, out)
            == if tail != "" then (Got(line), tail[1..]) else (if line == "" then Ended else Got(line), "")
    decreases |body|
  {
    var s := body + tail;
    if body == "" {
      assert s == tail && out + "" == out;
    } else {
      var more := if body[0] == '\r' then "" else [body[0]];
      assert s[0] == body[0] && s[1..] == body[1..] + tail;
      Regroup(out, more, WithoutCr(body[1..]));
      assert out + "" == out;
      ReadsTheLine(body[1..], tail, out + more);
    }
  }

  /** A longer one is an error. */
  lemma {:induction false} LongLineIsAnError(body: string, tail: string, out: string)
    requires '\n' !in body && '\r' !in body && |out| <= 262144 < |out| + |body|
    ensures ReadFrom(body + tail, out).0 == TooLong
    decreases |body|
  {
    assert (body + tail)[0] == body[0] && (body + tail)[1..] == body[1..] + tail;
    if |out| < 262144 {
      LongLineIsAnError(body[1..], tail, out + [body[0]]);
    }
  }

  class Connection {
    var stream: string  // what the socket will still deliver, then end of stream

    constructor (stream: string)
      ensures this.stream == stream
    {
      this.stream := stream;
    }

    method ReadLine() returns (r: LineResult)
      modifies this
      ensures (r, stream) == ReadFrom(old(stream), "")
    {
      var out := "";
      while true
        invariant ReadFrom(stream, out) == ReadFrom(old(stream), "")
        decreases |stream|
      {
        if stream == "" {
          return if out == "" then Ended else Got(out);
        }
        var byte := stream[0];
        stream := stream[1..];
        if byte == '\n' {
          return Got(out);
        }
        if byte != '\r' {
          out := out + [byte];
        }
        if |out| > Frames.MAX_FRAME_BYTES {
          return TooLong;
        }
      }
    }
  }
}
