/** What one event does to context, engine and backend, in plain terms. */
module RemoteLaws {
  import opened Wrappers
  import opened Network
  import opened CommitBuffer
  import opened RemoteProcessors

  // ----- the fetched context -----

  /** A context is kept exactly if the reply arrives and shows a preedit or at least one candidate. */
  lemma WhenAContextIsKept(cfg: Config, s: State, rpc: ContextRpc)
    ensures ContextCall(cfg, s, rpc).cached.Some?
            <==> && rpc.fate == Replied
                 && ((rpc.proto.composition.Some? && rpc.proto.composition.value.preedit != "")
                     || (rpc.proto.menu.Some? && rpc.proto.menu.value.numCandidates > 0))
  {
  }

  /** Every field of the kept context comes from its own field of the reply. */
  lemma WhereTheFieldsComeFrom(cfg: Config, s: State, rpc: ContextRpc)
    requires ContextCall(cfg, s, rpc).cached.Some?
    ensures var (c, proto) := (ContextCall(cfg, s, rpc).cached.value, rpc.proto);
            && c.preview == proto.preview
            && (proto.composition.Some? ==>
                  var k := proto.composition.value;
                  && c.preedit == k.preedit && c.cursorPos == k.cursorPos
                  && c.selStart == k.selStart && c.selEnd == k.selEnd)
            && (proto.composition.None? ==> c.preedit == "" && c.cursorPos == 0 && c.selStart == 0 && c.selEnd == 0)
            && (proto.menu.Some? ==>
                  var m := proto.menu.value;
                  && c.pageSize == m.pageSize && c.pageNo == m.pageNo && c.isLastPage == m.isLastPage
                  && c.highlighted == m.highlighted && c.candidates == m.candidates[..m.numCandidates])
            && (proto.menu.None? ==>
                  c.pageSize == 5 && c.pageNo == 0 && !c.isLastPage && c.highlighted == 0 && c.candidates == [])
  {
  }

  /** The select keys are the menu's, unless a v-mode test is configured and there is a preedit and a page. */
  lemma WhereTheSelectKeysComeFrom(cfg: Config, s: State, rpc: ContextRpc)
    requires ContextCall(cfg, s, rpc).cached.Some?
    ensures var (c, menu) := (ContextCall(cfg, s, rpc).cached.value, rpc.proto.menu);
            if cfg.vMode.Some? && c.preedit != "" && c.pageSize > 0 then
              && (cfg.vMode.value(c.preedit) ==> c.selectKeys <= "abcdefghij")
              && (!cfg.vMode.value(c.preedit) ==> c.selectKeys <= "1234567890")
              && |c.selectKeys| == if c.pageSize < 10 then c.pageSize else 10
            else
              c.selectKeys == if menu.Some? then menu.value.selectKeys else ""
  {
  }

  // ----- what is done with an event -----

  /** An open processor that sees no change of mode, in Chinese mode, and a press of more than a modifier. */
  predicate GoesToTheBackend(cfg: Config, s: State, e: Event) {
    cfg.isOpen && !s.asciiWasOn && !e.asciiNow && !e.release && !(0xFFE1 <= e.keycode <= 0xFFEE)
  }

  predicate ChangesMode(cfg: Config, s: State, e: Event) {
    cfg.isOpen && e.asciiNow != s.asciiWasOn
  }

  /** All other events are passed through, and touch nothing. */
  lemma OtherEventsChangeNothing(cfg: Config, s: State, e: Event)
    requires !GoesToTheBackend(cfg, s, e) && !ChangesMode(cfg, s, e) && !e.cleared
    ensures Handle(cfg, s, e) == (s, false)
  {
  }

  /** The event is taken if the mode changed, the backend said so, or the backend's preedit changed. */
  lemma WhenAnEventIsTaken(cfg: Config, s: State, e: Event)
    ensures var before := if s.cached.Some? then s.cached.value.preedit else "";
            var fetched := Handle(cfg, s, e).0.cached;
            var after := if fetched.Some? then fetched.value.preedit else "";
            Handle(cfg, s, e).1
            <==> ChangesMode(cfg, s, e)
                 || (GoesToTheBackend(cfg, s, e)
                     && ((e.key.fate == Replied && e.key.accepted) || before != after))
  {
  }

  // ----- what the backend is asked -----

  /** The ledger after a key and a commit request, as far as they arrive. */
  ghost predicate KeyAndCommit(l: Ledger, e: Event, after: Ledger) {
    var keyed := if e.key.fate == Lost || e.key.run.None? then l else AfterKey(l, e.key.run.value);
    after == if e.commit.fate == Lost then keyed else Take(keyed, e.commit.harvest).0
  }

  /** A key for the backend: key, commit and context request, in this order. */
  lemma WhatAKeyAsks(cfg: Config, s: State, e: Event)
    requires GoesToTheBackend(cfg, s, e)
    ensures exists l ::
              && KeyAndCommit(s.ledger, e, l)
              && Handle(cfg, s, e).0.ledger == if e.context.fate == Lost then l else Harvest(l, e.context.harvest)
  {
    var keyed := if e.key.fate == Lost || e.key.run.None? then s.ledger else AfterKey(s.ledger, e.key.run.value);
    var l := if e.commit.fate == Lost then keyed else Take(keyed, e.commit.harvest).0;
    assert KeyAndCommit(s.ledger, e, l);
  }

  /** The bound styles, and what a change to ASCII mode with a shown context does in each of them. */
  lemma WhatASwitchDoes(cfg: Config, s: State, e: Event)
    requires ChangesMode(cfg, s, e) && e.asciiNow && s.cached.Some?
    ensures var t := Handle(cfg, s, e).0;
            var style := if e.keycode in cfg.bindings then cfg.bindings[e.keycode] else Noop;
            var input := if e.cleared then "" else s.engine.input;
            && t.asciiWasOn
            && (style == InlineAscii ==> t.cached == s.cached && t.ledger == s.ledger && t.engine.input == input)
            && (style == Noop ==> t.cached == None && t.ledger == s.ledger && t.engine.input == input)
            && (style == CommitCode ==>
                  t.cached == None && KeyAndCommit(s.ledger, e, t.ledger) && t.engine.input == input)
            && (style in {CommitText, Clear} ==>
                  && t.cached == None && KeyAndCommit(s.ledger, e, t.ledger)
                  && t.engine.input == "" && t.engine.caret == 0 && !t.engine.segments)
  {
  }

  /** Leaving ASCII mode, or entering it with nothing shown, only remembers the mode. */
  lemma OtherSwitchesOnlyRemember(cfg: Config, s: State, e: Event)
    requires ChangesMode(cfg, s, e) && (!e.asciiNow || s.cached.None?) && !e.cleared
    ensures Handle(cfg, s, e) == (s.(asciiWasOn := e.asciiNow), true)
  {
  }

  // ----- what the engine shows -----

  /** After a key that is taken the engine shows the preedit, or a blank for candidates alone, with the caret in it. */
  lemma WhatIsShown(cfg: Config, s: State, e: Event)
    requires GoesToTheBackend(cfg, s, e) && Handle(cfg, s, e).1
    ensures var t := Handle(cfg, s, e).0;
            && t.asciiWasOn == s.asciiWasOn
            && (t.cached.Some? ==>
                  var (c, g) := (t.cached.value, t.engine);
                  && (c.preedit != "" ==> g.input == c.preedit) && (c.preedit == "" ==> g.input == " ")
                  && g.segments
                  && (0 <= c.cursorPos < |g.input| ==> g.caret == c.cursorPos)
                  && (!(0 <= c.cursorPos < |g.input|) ==> g.caret == |g.input|)
                  && g.selectKeys == if c.selectKeys != "" then c.selectKeys else s.engine.selectKeys)
            && (t.cached.None? ==>
                  && t.engine.input == "" && !t.engine.segments && t.engine.selectKeys == s.engine.selectKeys
                  && (s.engine.input != "" || s.engine.segments ==> t.engine.caret == 0))
  {
  }
}
