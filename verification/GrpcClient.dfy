/** The stub worker of the v1 host and the C++ client in front of it: sequence counter and query cache. */
module StubWorkers {
  import opened Wrappers

  datatype Stub = Stub(input: string, reading: string, candidates: seq<string>, lastCommit: string, version: nat)

  datatype QueryResult = QueryResult(
    composition: string, reading: string, candidates: seq<string>, selectedIndex: nat, pageSize: nat)

  /** `Vec::dedup`: drops an element equal to the one before it. */
  function Dedup(s: seq<string>): seq<string>
    decreases |s|
  {
    if |s| < 2 then s
    else if s[0] == s[1] then Dedup([s[0]] + s[2..])
    else [s[0]] + Dedup(s[1..])
  }

  function Templates(input: string): seq<string> {
    Dedup([input, input + "1", input + "2", input + "3", input + "4"])
  }

  function FakeCandidates(input: string, maxCount: nat): seq<string> {
    var t := Templates(input);
    if input == "" || maxCount == 0 then [] else if maxCount < |t| then t[..maxCount] else t
  }

  function Lower(c: char): char {
    if 'A' <= c <= 'Z' then (c as int + 32) as char else c
  }

  /** The character a virtual key types into the stub, if any. */
  function Typed(vk: nat): Option<char> {
    if 0x20 <= vk <= 0x7E then
      var c := Lower(vk as char);
      if 'a' <= c <= 'z' || '0' <= c <= '9' || c == '\'' then Some(c) else None
    else None
  }

  function KeyInput(input: string, keyDown: bool, vk: nat): string {
    if !keyDown then input
    else if vk == 0x08 then (if input == "" then input else input[..|input| - 1])
    else match Typed(vk) case Some(c) => input + [c] case None => input
  }

  function ApplyKey(w: Stub, keyDown: bool, vk: nat, maxCandidates: nat): Stub {
    var input := KeyInput(w.input, keyDown, vk);
    Stub(input, input, FakeCandidates(input, maxCandidates), w.lastCommit, w.version + 1)
  }

  function QueryStub(w: Stub, snapshot: string, maxCandidates: nat): (Stub, QueryResult) {
    var input := if snapshot != "" then snapshot else w.input;
    var candidates := FakeCandidates(input, maxCandidates);
    (Stub(input, input, candidates, w.lastCommit, w.version + 1),
     QueryResult(input, input, candidates, 0, maxCandidates))
  }

  function CommitStub(w: Stub, text: string, index: nat): (Stub, Option<string>) {
    var committed := if text == "" && index < |w.candidates| then w.candidates[index] else text;
    if committed == "" then (w, None) else (Stub("", "", [], committed, w.version + 1), Some(committed))
  }

  lemma LastCharsDiffer(s: string, a: char, b: char)
    requires a != b
    ensures s + [a] != s + [b] && s != s + [a]
  {
    assert (s + [a])[|s|] == a && (s + [b])[|s|] == b;
  }

  /** Deduplication keeps every text, and leaves no two equal ones side by side. */
  lemma {:induction false} WhatDedupKeeps(s: seq<string>)
    ensures var d := Dedup(s);
            && (d == [] <==> s == []) && (s != [] ==> d[0] == s[0])
            && (forall t :: t in d <==> t in s)
            && forall i :: 0 <= i < |d| - 1 ==> d[i] != d[i + 1]
    decreases |s|
  {
    if |s| >= 2 {
      if s[0] == s[1] {
        WhatDedupKeeps([s[0]] + s[2..]);
        assert s == [s[0], s[1]] + s[2..];
      } else {
        WhatDedupKeeps(s[1..]);
        assert s == [s[0]] + s[1..];
      }
    }
  }

  /** The five templates are pairwise distinct, so the deduplication never removes one. */
  lemma TemplatesAreFive(input: string)
    ensures Templates(input) == [input, input + "1", input + "2", input + "3", input + "4"]
  {
    var t1, t2, t3, t4 := input + "1", input + "2", input + "3", input + "4";
    LastCharsDiffer(input, '1', '2');
    LastCharsDiffer(input, '2', '3');
    LastCharsDiffer(input, '3', '4');
    assert [t3, t4][1..] == [t4];
    assert [t2, t3, t4][1..] == [t3, t4];
    assert [t1, t2, t3, t4][1..] == [t2, t3, t4];
    assert [input, t1, t2, t3, t4][1..] == [t1, t2, t3, t4];
    assert Dedup([t4]) == [t4];
    assert Dedup([t3, t4]) == [t3, t4];
    assert Dedup([t2, t3, t4]) == [t2, t3, t4];
    assert Dedup([t1, t2, t3, t4]) == [t1, t2, t3, t4];
  }

  /** Asking for fewer candidates gives a prefix; the stub has five to give. */
  lemma FakeCandidatesArePrefixes(input: string, few: nat, many: nat)
    requires few <= many && input != ""
    ensures FakeCandidates(input, few) <= FakeCandidates(input, many)
    ensures |FakeCandidates(input, many)| == if many < 5 then many else 5
  {
    TemplatesAreFive(input);
  }

  class WorkerRuntime {
    var input: string
    var reading: string
    var candidates: seq<string>
    var lastCommit: string
    var version: nat

    function Abs(): Stub
      reads this
    {
      Stub(input, reading, candidates, lastCommit, version)
    }

    constructor ()
      ensures Abs() == Stub("", "", [], "", 1)
    {
      input, reading, candidates, lastCommit, version := "", "", [], "", 1;
    }

    method ApplyKeyEvent(keyDown: bool, vk: nat, maxCandidates: nat)
      modifies this
      ensures Abs() == ApplyKey(old(Abs()), keyDown, vk, maxCandidates)
    {
      version := version + 1;
      if keyDown {
        if vk == 0x08 {
          if input != "" {
            input := input[..|input| - 1];
          }
        } else if 0x20 <= vk <= 0x7E {
          var ch := Lower(vk as char);
          if 'a' <= ch <= 'z' || '0' <= ch <= '9' || ch == '\'' {
            input := input + [ch];
          }
        }
      }
      reading := input;
      candidates := FakeCandidates(input, maxCandidates);
    }

    method QueryCandidates(snapshot: string, maxCandidates: nat) returns (r: QueryResult)
      modifies this
      ensures (Abs(), r) == QueryStub(old(Abs()), snapshot, maxCandidates)
    {
      version := version + 1;
      if snapshot != "" {
        input := snapshot;
      }
      reading := input;
      candidates := FakeCandidates(input, maxCandidates);
      r := QueryResult(input, reading, candidates, 0, maxCandidates);
    }

    method CommitSelection(text: string, index: nat) returns (r: Option<string>)
      modifies this
      ensures (Abs(), r) == CommitStub(old(Abs()), text, index)
    {
      var committed := text;
      if committed == "" && index < |candidates| {
        committed := candidates[index];
      }
      if committed == "" {
        return None;
      }
      version, lastCommit := version + 1, committed;
      input, reading, candidates := "", "", [];
      r := Some(committed);
    }
  }
}

module GrpcClients {
  import opened Wrappers
  import opened Network
  import opened StubWorkers
  import Gateway

  /** `fetchedFor` and `sent` are history: the count of the cached reply, the numbers of all requests so far. */
  datatype Client = Client(
    isOpen: bool, seqNo: nat, cachedQuery: QueryResult, hasCachedQuery: bool, fetchedFor: nat, sent: seq<nat>)

  const NO_RESULT := QueryResult("", "", [], 0, 0)

  const NEW_CLIENT := Client(false, 0, NO_RESULT, false, 0, [])

  function Clamp(maxCandidates: int): nat {
    if maxCandidates < 1 then 1 else maxCandidates
  }

  /** Opens a session on the first call that reaches the host; an open session is never given up. */
  function Ensure(c: Client, openRpc: Fate): Client {
    if c.isOpen || openRpc != Replied then c
    else c.(isOpen := true, seqNo := 0, hasCachedQuery := false, sent := [])
  }

  predicate Hits(c: Client, input: string, allowCached: bool) {
    && allowCached && c.hasCachedQuery && input != ""
    && (c.cachedQuery.composition == input || c.cachedQuery.reading == input)
  }

  function Cached(c: Client, n: nat): QueryResult {
    var r := c.cachedQuery;
    r.(candidates := if |r.candidates| > n then r.candidates[..n] else r.candidates, pageSize := n)
  }

  function Numbered(c: Client): Client {
    c.(seqNo := c.seqNo + 1, sent := c.sent + [c.seqNo + 1])
  }

  function QueryLocked(c: Client, w: Stub, input: string, maxCandidates: int, allowCached: bool, rpc: Fate)
    : (Client, Stub, Option<QueryResult>)
  {
    var n := Clamp(maxCandidates);
    if Hits(c, input, allowCached) then (c, w, Some(Cached(c, n)))
    else
      var c' := Numbered(c);
      var (w', reply) := QueryStub(w, input, n);
      match rpc
      case Lost => (c', w, None)
      case NoReply => (c', w', None)
      case Replied => (c'.(cachedQuery := reply, hasCachedQuery := true, fetchedFor := n), w', Some(reply))
  }

  /** `keycode() & 0xff`. */
  function VirtualKey(keycode: int): nat {
    keycode % 0x100
  }

  /** One call of the client's public interface, with the fate of each RPC it makes. */
  datatype Call =
    | SendKey(release: bool, keycode: int, openRpc: Fate, key: Fate, prefetch: Fate, maxCandidates: int)
    | QueryCall(input: string, maxCandidates: int, openRpc: Fate, rpc: Fate)
    | CommitCall(text: string, index: int, hint: nat, openRpc: Fate, rpc: Fate)

  function AfterSendKey(c: Client, w: Stub, call: Call): (Client, Stub, bool)
    requires call.SendKey?
  {
    var c0 := Ensure(c, call.openRpc);
    if !c0.isOpen then (c0, w, false)
    else
      var c1 := Numbered(c0);
      var w1 := if call.key == Lost then w else ApplyKey(w, !call.release, VirtualKey(call.keycode), 9);
      if call.key != Replied then (c1, w1, false)
      else if call.release then (c1, w1, true)
      else
        var (c2, w2, _) := QueryLocked(c1, w1, "", call.maxCandidates, false, call.prefetch);
        (c2, w2, true)
  }

  function AfterQuery(c: Client, w: Stub, call: Call): (Client, Stub, Option<QueryResult>)
    requires call.QueryCall?
  {
    var c0 := Ensure(c, call.openRpc);
    if !c0.isOpen then (c0, w, None) else QueryLocked(c0, w, call.input, call.maxCandidates, true, call.rpc)
  }

  function AfterCommit(c: Client, w: Stub, call: Call): (Client, Stub, bool)
    requires call.CommitCall?
  {
    var c0 := Ensure(c, call.openRpc);
    if !c0.isOpen then (c0, w, false)
    else
      var c1 := if call.hint > 0 then c0.(sent := c0.sent + [call.hint]) else Numbered(c0);
      var (w', committed) := CommitStub(w, call.text, if call.index >= 0 then call.index else 0);
      var ok := call.rpc == Replied && committed.Some?;
      (if ok then c1.(hasCachedQuery := false) else c1, if call.rpc == Lost then w else w', ok)
  }

  function Step(c: Client, w: Stub, call: Call): (Client, Stub) {
    match call
    case SendKey(_, _, _, _, _, _) => var (c', w', _) := AfterSendKey(c, w, call); (c', w')
    case QueryCall(_, _, _, _) => var (c', w', _) := AfterQuery(c, w, call); (c', w')
    case CommitCall(_, _, _, _, _) => var (c', w', _) := AfterCommit(c, w, call); (c', w')
  }

  function Run(c: Client, w: Stub, calls: seq<Call>): (Client, Stub)
    decreases |calls|
  {
    if calls == [] then (c, w) else var (c', w') := Step(c, w, calls[0]); Run(c', w', calls[1..])
  }

  // ----- the cache -----

  /** A cached reply is the stub's reply to some query with `fetchedFor` candidates. */
  ghost predicate CacheInv(c: Client) {
    c.hasCachedQuery ==>
      c.isOpen && c.fetchedFor >= 1 &&
      var x := c.cachedQuery.composition;
      c.cachedQuery == QueryResult(x, x, FakeCandidates(x, c.fetchedFor), 0, c.fetchedFor)
  }

  lemma {:induction false} CacheInvHolds(c: Client, w: Stub, calls: seq<Call>)
    requires CacheInv(c)
    ensures CacheInv(Run(c, w, calls).0)
    decreases |calls|
  {
    if calls != [] {
      var (c', w') := Step(c, w, calls[0]);
      CacheInvHolds(c', w', calls[1..]);
    }
  }

  /**
   * In every reachable state of client and worker, whatever got lost on the way, a cache hit gives the reply
   * a fresh RPC would give. The candidate lists agree exactly when the hit asks for no more than the cached
   * reply was fetched with (or than the stub has to give).
   */
  lemma CacheHitEqualsFreshReply(w0: Stub, calls: seq<Call>, input: string, maxCandidates: int)
    requires var (c, w) := Run(NEW_CLIENT, w0, calls); Hits(c, input, true)
    ensures var (c, w) := Run(NEW_CLIENT, w0, calls);
            var n := Clamp(maxCandidates);
            var hit, reply := Cached(c, n), QueryStub(w, input, n).1;
            && QueryLocked(c, w, input, maxCandidates, true, Replied).2 == Some(hit)
            && hit.composition == reply.composition && hit.reading == reply.reading
            && hit.selectedIndex == reply.selectedIndex && hit.pageSize == reply.pageSize
            && hit.candidates <= reply.candidates
            && (hit == reply <==> n <= c.fetchedFor || 5 <= c.fetchedFor)
  {
    CacheInvHolds(NEW_CLIENT, w0, calls);
    var (c, w) := Run(NEW_CLIENT, w0, calls);
    var n := Clamp(maxCandidates);
    if n <= c.fetchedFor {
      FakeCandidatesArePrefixes(input, n, c.fetchedFor);
      FakeCandidatesArePrefixes(input, n, n);
    } else {
      FakeCandidatesArePrefixes(input, c.fetchedFor, n);
      FakeCandidatesArePrefixes(input, c.fetchedFor, c.fetchedFor);
    }
  }

  /** A hit that asks for more than the cached reply was fetched with really falls short. */
  lemma SmallCacheFallsShort(w0: Stub)
    ensures var (c, w) := Run(NEW_CLIENT, w0, [QueryCall("a", 1, Replied, Replied)]);
            && Hits(c, "a", true)
            && Cached(c, 2).candidates == ["a"] && QueryStub(w, "a", 2).1.candidates == ["a", "a1"]
  {
    var calls := [QueryCall("a", 1, Replied, Replied)];
    TemplatesAreFive("a");
    assert calls[1..] == [];
    assert Run(NEW_CLIENT, w0, calls) == Step(NEW_CLIENT, w0, calls[0]);
    assert "a" + "1" == "a1";
  }

  // ----- committing what a query has listed -----

  /** The stub's list is always one for its input. */
  ghost predicate StubInv(w: Stub) {
    w.candidates == FakeCandidates(w.input, |w.candidates|)
  }

  lemma FakeListsAreStubLists(input: string, n: nat)
    ensures FakeCandidates(input, |FakeCandidates(input, n)|) == FakeCandidates(input, n)
    ensures forall i :: 0 <= i < |FakeCandidates(input, n)| ==> FakeCandidates(input, n)[i] != ""
    ensures FakeCandidates(input, n) != [] ==> FakeCandidates(input, n)[0] == input
    ensures input != "" && n >= 1 ==> FakeCandidates(input, n) != []
  {
    TemplatesAreFive(input);
  }

  lemma StubStep(c: Client, w: Stub, call: Call)
    requires StubInv(w)
    ensures StubInv(Step(c, w, call).1)
  {
    var c0 := Ensure(c, call.openRpc);
    match call
    case SendKey(release, keycode, _, key, _, max) =>
      FakeListsAreStubLists(KeyInput(w.input, !release, VirtualKey(keycode)), 9);
      var w1 := if key == Lost then w else ApplyKey(w, !release, VirtualKey(keycode), 9);
      assert StubInv(w1);
      FakeListsAreStubLists(w1.input, Clamp(max));
    case QueryCall(input, max, _, _) => FakeListsAreStubLists(if input != "" then input else w.input, Clamp(max));
    case CommitCall(_, _, _, _, _) =>
  }

  lemma {:induction false} StubInvHolds(c: Client, w: Stub, calls: seq<Call>)
    requires StubInv(w)
    ensures StubInv(Run(c, w, calls).1)
    decreases |calls|
  {
    if calls != [] {
      StubStep(c, w, calls[0]);
      var (c', w') := Step(c, w, calls[0]);
      StubInvHolds(c', w', calls[1..]);
    }
  }

  function PickCall(i: nat): Call {
    CommitCall("", i, 0, Replied, Replied)
  }

  /** The client's commit by index commits the listed text, for every index of the list. */
  ghost predicate CommitsListed(c: Client, w: Stub, listed: seq<string>) {
    forall i :: 0 <= i < |listed| ==>
                  var (_, after, ok) := AfterCommit(c, w, PickCall(i));
                  ok && after.lastCommit == listed[i]
  }

  lemma CommitsListedIff(c: Client, w: Stub, input: string, listed: seq<string>)
    requires c.isOpen && StubInv(w)
    requires input != "" && listed == FakeCandidates(input, |listed|) && listed != []
    ensures CommitsListed(c, w, listed) <==> w.input == input && |listed| <= |w.candidates|
  {
    FakeListsAreStubLists(input, |listed|);
    FakeListsAreStubLists(w.input, |w.candidates|);
    if w.input == input && |listed| <= |w.candidates| {
      FakeCandidatesArePrefixes(input, |listed|, |w.candidates|);
    }
    if CommitsListed(c, w, listed) {
      var last := |listed| - 1;
      assert AfterCommit(c, w, PickCall(0)).1.lastCommit == listed[0];
      assert AfterCommit(c, w, PickCall(last)).1.lastCommit == listed[last];
    }
  }

  /**
   * A hit does not tell the worker about its input, as the RPC does. A commit by index after a fresh reply commits
   * what was listed. After a hit it does so exactly when the worker still has that input and a list at least as long.
   */
  lemma HitCommitsWhatItListsIff(w0: Stub, calls: seq<Call>, input: string, maxCandidates: int)
    requires StubInv(w0) && Hits(Run(NEW_CLIENT, w0, calls).0, input, true)
    ensures var (c, w) := Run(NEW_CLIENT, w0, calls);
            var n := Clamp(maxCandidates);
            var (hit, (told, reply)) := (Cached(c, n), QueryStub(w, input, n));
            && CommitsListed(c, told, reply.candidates)
            && (CommitsListed(c, w, hit.candidates) <==> w.input == input && |hit.candidates| <= |w.candidates|)
  {
    CacheInvHolds(NEW_CLIENT, w0, calls);
    StubInvHolds(NEW_CLIENT, w0, calls);
    var (c, w) := Run(NEW_CLIENT, w0, calls);
    var n := Clamp(maxCandidates);
    FakeListsAreStubLists(input, n);
    FakeListsAreStubLists(input, c.fetchedFor);
    var shorter := if n < c.fetchedFor then n else c.fetchedFor;
    FakeCandidatesArePrefixes(input, shorter, c.fetchedFor);
    FakeCandidatesArePrefixes(input, shorter, shorter);
    FakeListsAreStubLists(input, shorter);
    assert Cached(c, n).candidates == FakeCandidates(input, shorter);
    CommitsListedIff(c, w, input, Cached(c, n).candidates);
  }

  /** A key whose reply was lost moves the worker on: the hit lists "a", committing it by index commits "ab". */
  lemma LostKeyReplyMisleadsCommit()
    ensures var calls := [QueryCall("a", 5, Replied, Replied), SendKey(false, 0x42, Replied, NoReply, Lost, 5)];
            var (c, w) := Run(NEW_CLIENT, Stub("", "", [], "", 0), calls);
            && Hits(c, "a", true) && Cached(c, 5).candidates[..1] == ["a"]
            && AfterCommit(c, w, PickCall(0)).1.lastCommit == "ab"
  {
    var w0 := Stub("", "", [], "", 0);
    var (query, key) := (QueryCall("a", 5, Replied, Replied), SendKey(false, 0x42, Replied, NoReply, Lost, 5));
    assert [query, key][1..] == [key] && [key][1..] == [];
    var (c, w) := Step(NEW_CLIENT, w0, query);
    assert Run(NEW_CLIENT, w0, [query, key]) == Run(c, w, [key]) == Step(c, w, key);
    FakeListsAreStubLists("a", 5);
    assert KeyInput("a", true, 0x42) == "ab";
    FakeListsAreStubLists("ab", 9);
  }

  // ----- the sequence counter -----

  ghost predicate Increasing(s: seq<nat>) {
    forall i, j :: 0 <= i < j < |s| ==> s[i] < s[j]
  }

  ghost predicate CounterInv(c: Client) {
    Increasing(c.sent) && forall i :: 0 <= i < |c.sent| ==> 1 <= c.sent[i] <= c.seqNo
  }

  ghost predicate NoHints(calls: seq<Call>) {
    forall i :: 0 <= i < |calls| && calls[i].CommitCall? ==> calls[i].hint == 0
  }

  ghost predicate Later(c: Client, d: Client) {
    c.isOpen ==> d.isOpen && c.sent <= d.sent
  }

  lemma NumberingCounts(c: Client)
    requires CounterInv(c)
    ensures CounterInv(Numbered(c)) && Later(c, Numbered(c))
  {
  }

  lemma QueryCounts(c: Client, w: Stub, input: string, maxCandidates: int, allowCached: bool, rpc: Fate)
    requires CounterInv(c)
    ensures var d := QueryLocked(c, w, input, maxCandidates, allowCached, rpc).0;
            CounterInv(d) && Later(c, d)
  {
    NumberingCounts(c);
  }

  lemma StepCounts(c: Client, w: Stub, call: Call)
    requires CounterInv(c) && (call.CommitCall? ==> call.hint == 0)
    ensures CounterInv(Step(c, w, call).0) && Later(c, Step(c, w, call).0)
  {
    var c0 := Ensure(c, call.openRpc);
    if c0.isOpen {
      NumberingCounts(c0);
      match call
      case SendKey(release, keycode, _, key, prefetch, max) =>
        var w1 := if key == Lost then w else ApplyKey(w, !release, VirtualKey(keycode), 9);
        QueryCounts(Numbered(c0), w1, "", max, false, prefetch);
      case QueryCall(input, max, _, rpc) =>
        QueryCounts(c0, w, input, max, true, rpc);
      case CommitCall(_, _, _, _, _) =>
    }
  }

  /**
   * The numbers one session sends grow strictly whatever the network does, and once open the session is
   * never replaced: the premise of `GatewayRuns.GrowingNumbersAreNeverRejected`.
   */
  lemma {:induction false} NumbersAlwaysGrow(c: Client, w: Stub, calls: seq<Call>)
    requires CounterInv(c) && NoHints(calls)
    ensures var c' := Run(c, w, calls).0;
            CounterInv(c') && Increasing(c'.sent) && Later(c, c')
    decreases |calls|
  {
    if calls != [] {
      StepCounts(c, w, calls[0]);
      var (c', w') := Step(c, w, calls[0]);
      NumbersAlwaysGrow(c', w', calls[1..]);
    }
  }

  /** A caller-supplied number breaks the next key exactly when it runs ahead of the client's counter. */
  lemma HintMustNotRunAhead(c: Client, w: Stub, call: Call, t: Gateway.Table, sid: string, now: nat)
    requires call.CommitCall? && call.hint > 0 && c.isOpen
    requires sid in t && t[sid].lastSeq <= c.seqNo
    ensures var c' := AfterCommit(c, w, call).0;
            var t' := Gateway.Touched(t, sid, c'.sent[|c'.sent| - 1], now);
            var nextKey := Numbered(c').seqNo;
            nextKey <= t'[sid].lastSeq <==> call.hint > c.seqNo
  {
  }

  /** After query number 1 a commit is given number 5: the next key is number 2, and the host has stored 5. */
  lemma HintLocksTheClientOut(w0: Stub)
    ensures var calls := [QueryCall("a", 1, Replied, Replied), CommitCall("a", 0, 5, Replied, Replied)];
            var c := Run(NEW_CLIENT, w0, calls).0;
            var t := map["s" := Gateway.Session("w", c.sent[0], 0)];
            c.sent == [1, 5] && Numbered(c).seqNo == 2 && Gateway.Touched(t, "s", c.sent[1], 0)["s"].lastSeq == 5
  {
    var (query, commit) := (QueryCall("a", 1, Replied, Replied), CommitCall("a", 0, 5, Replied, Replied));
    assert [query, commit][1..] == [commit] && [commit][1..] == [];
    var (c, w) := Step(NEW_CLIENT, w0, query);
    assert Run(NEW_CLIENT, w0, [query, commit]) == Run(c, w, [commit]) == Step(c, w, commit);
  }

  // ----- the client object -----

  class GrpcImeClient {
    var isOpen: bool
    var seqNo: nat
    var cachedQuery: QueryResult
    var hasCachedQuery: bool
    ghost var fetchedFor: nat
    ghost var sent: seq<nat>
    const maxCandidates: int

    ghost function Abs(): Client
      reads this
    {
      Client(isOpen, seqNo, cachedQuery, hasCachedQuery, fetchedFor, sent)
    }

    constructor (maxCandidates: int)
      ensures Abs() == NEW_CLIENT && this.maxCandidates == maxCandidates
    {
      this.maxCandidates := maxCandidates;
      isOpen, seqNo, cachedQuery, hasCachedQuery := false, 0, NO_RESULT, false;
      fetchedFor, sent := 0, [];
    }

    method EnsureSession(openRpc: Fate) returns (ok: bool)
      modifies this
      ensures Abs() == Ensure(old(Abs()), openRpc) && ok == isOpen
    {
      if isOpen {
        return true;
      }
      if openRpc != Replied {
        return false;
      }
      isOpen, seqNo, hasCachedQuery := true, 0, false;
      sent := [];
      ok := true;
    }

    method QueryCandidatesLocked(w: WorkerRuntime, input: string, max: int, allowCached: bool, rpc: Fate)
      returns (r: Option<QueryResult>)
      modifies this, w
      ensures (Abs(), w.Abs(), r) == QueryLocked(old(Abs()), old(w.Abs()), input, max, allowCached, rpc)
    {
      var clamped := if max < 1 then 1 else max;
      if allowCached && hasCachedQuery && input != "" {
        if cachedQuery.composition == input || cachedQuery.reading == input {
          var out := cachedQuery;
          if |out.candidates| > clamped {
            out := out.(candidates := out.candidates[..clamped]);
          }
          return Some(out.(pageSize := clamped));
        }
      }
      seqNo := seqNo + 1;
      sent := sent + [seqNo];
      if rpc == Lost {
        return None;
      }
      var reply := w.QueryCandidates(input, clamped);
      if rpc == NoReply {
        return None;
      }
      cachedQuery, hasCachedQuery := reply, true;
      fetchedFor := clamped;
      r := Some(reply);
    }

    method SendKeyEvent(w: WorkerRuntime, call: Call) returns (ok: bool)
      requires call.SendKey? && call.maxCandidates == maxCandidates
      modifies this, w
      ensures (Abs(), w.Abs(), ok) == AfterSendKey(old(Abs()), old(w.Abs()), call)
    {
      var ready := EnsureSession(call.openRpc);
      if !ready {
        return false;
      }
      seqNo := seqNo + 1;
      sent := sent + [seqNo];
      if call.key != Lost {
        w.ApplyKeyEvent(!call.release, VirtualKey(call.keycode), 9);
      }
      if call.key != Replied {
        return false;
      }
      if !call.release {
        var _ := QueryCandidatesLocked(w, "", maxCandidates, false, call.prefetch);
      }
      ok := true;
    }

    method QueryCandidates(w: WorkerRuntime, call: Call) returns (r: Option<QueryResult>)
      requires call.QueryCall?
      modifies this, w
      ensures (Abs(), w.Abs(), r) == AfterQuery(old(Abs()), old(w.Abs()), call)
    {
      var ready := EnsureSession(call.openRpc);
      if !ready {
        return None;
      }
      r := QueryCandidatesLocked(w, call.input, call.maxCandidates, true, call.rpc);
    }

    method CommitSelection(w: WorkerRuntime, call: Call) returns (ok: bool)
      requires call.CommitCall?
      modifies this, w
      ensures (Abs(), w.Abs(), ok) == AfterCommit(old(Abs()), old(w.Abs()), call)
    {
      var ready := EnsureSession(call.openRpc);
      if !ready {
        return false;
      }
      if call.hint == 0 {
        seqNo := seqNo + 1;
      }
      sent := sent + [if call.hint > 0 then call.hint else seqNo];
      if call.rpc == Lost {
        return false;
      }
      var committed := w.CommitSelection(call.text, if call.index >= 0 then call.index else 0);
      ok := call.rpc == Replied && committed.Some?;
      if ok {
        hasCachedQuery := false;
      }
    }
  }
}
