/** What the client's calls do to client and stub worker, in plain terms. */
module ClientLaws {
  import opened Wrappers
  import opened Network
  import opened StubWorkers
  import opened GrpcClients

  // ----- the stub's keyboard -----

  predicate Typable(c: char) {
    'a' <= c <= 'z' || '0' <= c <= '9' || c == '\''
  }

  lemma KeysType(input: string, c: char)
    requires Typable(c)
    ensures KeyInput(input, true, c as nat) == input + [c]
    ensures 'a' <= c <= 'z' ==> KeyInput(input, true, c as nat - 32) == input + [c]
  {
  }

  /** A release, and a press of anything that is neither Backspace nor typable, changes nothing. */
  lemma OtherKeysDoNothing(input: string, keyDown: bool, vk: nat)
    requires keyDown ==>
               vk != 8 && vk != 39 && !(48 <= vk <= 57) && !(65 <= vk <= 90) && !(97 <= vk <= 122)
    ensures KeyInput(input, keyDown, vk) == input
  {
  }

  function TypeAll(input: string, keys: string): string {
    if keys == "" then input else KeyInput(TypeAll(input, keys[..|keys| - 1]), true, keys[|keys| - 1] as nat)
  }

  function EraseAll(input: string, n: nat): string {
    if n == 0 then input else KeyInput(EraseAll(input, n - 1), true, 8)
  }

  /** Typing a word appends it. */
  lemma {:induction false} TypingAppends(input: string, word: string)
    requires forall i :: 0 <= i < |word| ==> Typable(word[i])
    ensures TypeAll(input, word) == input + word
  {
    if word != "" {
      var front := word[..|word| - 1];
      TypingAppends(input, front);
      KeysType(input + front, word[|word| - 1]);
      assert input + front + [word[|word| - 1]] == input + word;
    }
  }

  /** Backspace takes the last characters away again, and stops at the empty input. */
  lemma {:induction false} BackspaceErases(input: string, n: nat)
    ensures EraseAll(input, n) == if n <= |input| then input[..|input| - n] else ""
  {
    if n > 0 {
      BackspaceErases(input, n - 1);
    }
  }

  /** The list for an input: the input itself and four numbered variants, as many as asked for. */
  lemma WhatIsListed(input: string, n: nat)
    ensures input == "" ==> FakeCandidates(input, n) == []
    ensures input != "" ==>
              var all := [input, input + "1", input + "2", input + "3", input + "4"];
              FakeCandidates(input, n) == if n < 5 then all[..n] else all
  {
    TemplatesAreFive(input);
  }

  // ----- the client's calls -----

  /** A new client has no session, no cache and has sent nothing. */
  lemma WhatANewClientIs()
    ensures !NEW_CLIENT.isOpen && NEW_CLIENT.seqNo == 0 && !NEW_CLIENT.hasCachedQuery && NEW_CLIENT.sent == []
  {
  }

  /** A session is opened by the first call that reaches the host, at number 0 and without a cache. */
  lemma OpeningASession(c: Client, rpc: Fate)
    ensures c.isOpen ==> Ensure(c, rpc) == c
    ensures !c.isOpen && rpc != Replied ==> Ensure(c, rpc) == c
    ensures !c.isOpen && rpc == Replied ==>
              var d := Ensure(c, rpc);
              d.isOpen && d.seqNo == 0 && !d.hasCachedQuery && d.sent == []
  {
  }

  /** Without a session a call does nothing and fails. */
  lemma NoSessionNoCall(c: Client, w: Stub, call: Call)
    requires !c.isOpen && call.openRpc != Replied
    ensures Step(c, w, call) == (c, w)
    ensures call.SendKey? ==> !AfterSendKey(c, w, call).2
    ensures call.QueryCall? ==> AfterQuery(c, w, call).2 == None
    ensures call.CommitCall? ==> !AfterCommit(c, w, call).2
  {
  }

  /** The text or the picked candidate is committed, and the stub starts over. A negative index counts as 0. */
  lemma WhatACommitCommits(c: Client, w: Stub, text: string, index: int, hint: nat)
    requires c.isOpen
    ensures var picked := if index < 0 then 0 else index;
            var (d, v, ok) := AfterCommit(c, w, CommitCall(text, index, hint, Lost, Replied));
            && (text != "" ==> ok && v.lastCommit == text)
            && (text == "" && picked < |w.candidates| && w.candidates[picked] != "" ==>
                  ok && v.lastCommit == w.candidates[picked])
            && (text == "" && picked >= |w.candidates| ==> !ok && v == w)
            && (ok ==> v.input == "" && v.reading == "" && v.candidates == [] && v.version == w.version + 1)
            && (ok ==> !d.hasCachedQuery) && (!ok ==> d.hasCachedQuery == c.hasCachedQuery)
            && d.sent == c.sent + [if hint == 0 then c.seqNo + 1 else hint]
            && d.seqNo == c.seqNo + (if hint == 0 then 1 else 0)
  {
  }

  /** Whatever becomes of a commit's reply: the stub has committed unless the request was lost. */
  lemma WhenACommitCommits(c: Client, w: Stub, call: Call)
    requires c.isOpen && call.CommitCall? && call.text != ""
    ensures var (d, v, ok) := AfterCommit(c, w, call);
            && (call.rpc == Lost ==> v == w && !ok)
            && (call.rpc != Lost ==> v.lastCommit == call.text)
            && (ok <==> call.rpc == Replied) && (!ok ==> d.hasCachedQuery == c.hasCachedQuery)
  {
  }

  /** A query answered by the host: its number, what the stub then holds, and what is cached. */
  lemma WhatAQueryDoes(c: Client, w: Stub, input: string, maxCandidates: int, rpc: Fate)
    requires c.isOpen
    requires c.hasCachedQuery && input != "" ==> input !in {c.cachedQuery.composition, c.cachedQuery.reading}
    ensures var n := if maxCandidates < 1 then 1 else maxCandidates;
            var text := if input == "" then w.input else input;
            var (d, v, r) := AfterQuery(c, w, QueryCall(input, maxCandidates, Lost, rpc));
            && d.seqNo == c.seqNo + 1 && d.sent == c.sent + [c.seqNo + 1]
            && (rpc == Lost ==> v == w)
            && (rpc != Lost ==> v == Stub(text, text, FakeCandidates(text, n), w.lastCommit, w.version + 1))
            && (rpc == Replied ==>
                  && r == Some(QueryResult(text, text, FakeCandidates(text, n), 0, n))
                  && d.hasCachedQuery && d.cachedQuery == r.value && d.fetchedFor == n)
            && (rpc != Replied ==>
                  r == None && d.hasCachedQuery == c.hasCachedQuery && d.cachedQuery == c.cachedQuery)
  {
  }

  /** A hit: no number is used, nobody is asked, and the list is cut to the request. */
  lemma WhatAHitDoes(c: Client, w: Stub, input: string, maxCandidates: int, rpc: Fate)
    requires c.isOpen && c.hasCachedQuery && input != "" && input in {c.cachedQuery.composition, c.cachedQuery.reading}
    ensures var n := if maxCandidates < 1 then 1 else maxCandidates;
            var (d, v, r) := AfterQuery(c, w, QueryCall(input, maxCandidates, Lost, rpc));
            && d == c && v == w && r.Some?
            && r.value.composition == c.cachedQuery.composition && r.value.reading == c.cachedQuery.reading
            && r.value.selectedIndex == c.cachedQuery.selectedIndex && r.value.pageSize == n
            && (|c.cachedQuery.candidates| <= n ==> r.value.candidates == c.cachedQuery.candidates)
            && (|c.cachedQuery.candidates| > n ==> r.value.candidates == c.cachedQuery.candidates[..n])
  {
  }

  /** A pressed key reaches the stub as its low byte; with all replies the client then holds what was typed. */
  lemma WhatAPressedKeyDoes(c: Client, w: Stub, keycode: int, key: Fate, prefetch: Fate, maxCandidates: int)
    requires c.isOpen
    ensures var n := if maxCandidates < 1 then 1 else maxCandidates;
            var typed := KeyInput(w.input, true, keycode % 256);
            var (d, v, ok) := AfterSendKey(c, w, SendKey(false, keycode, Lost, key, prefetch, maxCandidates));
            && (ok <==> key == Replied)
            && v.input == (if key == Lost then w.input else typed) && v.lastCommit == w.lastCommit
            && (key == Lost ==> v == w) && (key == NoReply ==> v.reading == typed && v.version == w.version + 1)
            && (key != Replied ==> d.sent == c.sent + [c.seqNo + 1] && d.seqNo == c.seqNo + 1)
            && (key == Replied ==> d.sent == c.sent + [c.seqNo + 1, c.seqNo + 2] && d.seqNo == c.seqNo + 2)
            && (key == NoReply ==> v.candidates == FakeCandidates(typed, 9))
            && (key == Replied && prefetch == Replied ==>
                  && d.hasCachedQuery && d.cachedQuery == QueryResult(typed, typed, FakeCandidates(typed, n), 0, n)
                  && v.candidates == FakeCandidates(typed, n))
            && (!(key == Replied && prefetch == Replied) ==>
                  d.hasCachedQuery == c.hasCachedQuery && d.cachedQuery == c.cachedQuery)
  {
  }

  /** A released key costs one number, types nothing and fetches nothing. */
  lemma WhatAReleasedKeyDoes(c: Client, w: Stub, keycode: int, key: Fate, prefetch: Fate, maxCandidates: int)
    requires c.isOpen
    ensures var (d, v, ok) := AfterSendKey(c, w, SendKey(true, keycode, Lost, key, prefetch, maxCandidates));
            && (ok <==> key == Replied) && v.input == w.input
            && d.sent == c.sent + [c.seqNo + 1] && d.seqNo == c.seqNo + 1
            && d.hasCachedQuery == c.hasCachedQuery && d.cachedQuery == c.cachedQuery
  {
  }
}
