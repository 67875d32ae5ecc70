/** The rime-remote processor: keys go to a backend whose replies may be late or lost. */
module RemoteProcessors {
  import opened Wrappers
  import opened Network
  import opened Lines
  import opened CommitBuffer

  // ----- the backend as the client sees it -----

  datatype Composition = Composition(preedit: string, cursorPos: int, selStart: int, selEnd: int)

  datatype Candidate = Candidate(text: string, comment: string)

  datatype MenuFields = MenuFields(
    candidates: seq<Candidate>, numCandidates: int, pageSize: int, pageNo: int, isLastPage: bool, highlighted: int,
    selectKeys: string)

  /** A menu whose count its list can serve; see `MenuReader.PluginCompletesIff` for the others. */
  type Menu = m: MenuFields | 0 <= m.numCandidates <= |m.candidates| witness MenuFields([], 0, 0, 0, false, 0, "")

  datatype Proto = Proto(composition: Option<Composition>, menu: Option<Menu>, preview: string)

  datatype KeyRpc = KeyRpc(fate: Fate, run: Option<KeyRun>, accepted: bool)

  datatype CommitRpc = CommitRpc(fate: Fate, harvest: Pumped)

  datatype ContextRpc = ContextRpc(fate: Fate, harvest: Pumped, proto: Proto)

  // ----- the client -----

  datatype Context = Context(
    preedit: string, cursorPos: int, selStart: int, selEnd: int,
    candidates: seq<Candidate>, pageSize: int, pageNo: int, isLastPage: bool, highlighted: int, selectKeys: string,
    preview: string)

  const NO_CONTEXT := Context("", 0, 0, 0, [], 5, 0, false, 0, "", "")

  /** The engine's context and its schema's select keys; IsComposing holds with input or with leftover segments. */
  datatype Engine = Engine(input: string, caret: nat, segments: bool, selectKeys: string, committed: seq<string>)

  datatype Style = Noop | InlineAscii | CommitText | CommitCode | Clear

  /** `vMode`: the configured preedit test that decides between letters and digits as select keys. */
  datatype Config = Config(isOpen: bool, bindings: map<int, Style>, vMode: Option<string -> bool>)

  /** What became of a text the backend handed out. */
  datatype Outcome = Emitted(text: string) | Discarded(text: string) | Unread(text: string)

  datatype State = State(
    ledger: Ledger, cached: Option<Context>, engine: Engine, asciiWasOn: bool, outcomes: seq<Outcome>)

  /**
   * A key event as it reaches the processor. `cleared`: a processor before it, such as `ascii_composer`, has
   * cleared the engine's input. The RPC parts say how the calls go that this event may make.
   */
  datatype Event = Event(
    keycode: int, release: bool, asciiNow: bool, cleared: bool, key: KeyRpc, commit: CommitRpc, context: ContextRpc)

  predicate ModifierOnly(keycode: int) {
    0xFFE1 <= keycode <= 0xFFEE
  }

  function ClearInput(g: Engine): Engine {
    g.(input := "", caret := 0, segments := false)
  }

  predicate Composing(g: Engine) {
    g.input != "" || g.segments
  }

  /** `set_input` moves the caret to the end; a cursor inside the text moves it back. */
  function SetInput(g: Engine, text: string, cursor: int): Engine {
    g.(input := text, caret := if 0 <= cursor < |text| then cursor else |text|, segments := true)
  }

  function KeyCall(s: State, rpc: KeyRpc): (State, bool) {
    if rpc.fate == Lost then (s, false)
    else (s.(ledger := After(s.ledger, ProcessKey(rpc.run))), rpc.fate == Replied && rpc.accepted)
  }

  /** A taken text is emitted or discarded if its reply arrives, and unread otherwise. */
  function CommitCall(s: State, rpc: CommitRpc, emit: bool): State {
    if rpc.fate == Lost then s
    else
      var (ledger, text) := Take(s.ledger, rpc.harvest);
      match text
      case None => s.(ledger := ledger)
      case Some(t) =>
        if rpc.fate == NoReply then s.(ledger := ledger, outcomes := s.outcomes + [Unread(t)])
        else if emit && t != "" then
          s.(ledger := ledger, outcomes := s.outcomes + [Emitted(t)],
             engine := s.engine.(committed := s.engine.committed + [t]))
        else s.(ledger := ledger, outcomes := s.outcomes + [Discarded(t)])
  }

  const ALPHA_KEYS := "abcdefghij"
  const NUM_KEYS := "1234567890"

  /** One select key for each candidate of a page, as far as there are ten. */
  function SelectKeys(isVMode: bool, pageSize: nat): string {
    var keys := if isVMode then ALPHA_KEYS else NUM_KEYS;
    assert |keys| == 10;
    keys[..if pageSize > 10 then 10 else pageSize]
  }

  function WithComposition(c: Context, composition: Option<Composition>): Context {
    match composition
    case None => c
    case Some(k) => c.(preedit := k.preedit, cursorPos := k.cursorPos, selStart := k.selStart, selEnd := k.selEnd)
  }

  function WithMenu(c: Context, menu: Option<Menu>): Context {
    match menu
    case None => c
    case Some(m) =>
      c.(candidates := m.candidates[..m.numCandidates], pageSize := m.pageSize, pageNo := m.pageNo,
         isLastPage := m.isLastPage, highlighted := m.highlighted, selectKeys := m.selectKeys)
  }

  function WithSelectKeys(cfg: Config, c: Context): Context {
    if c.preedit != "" && c.pageSize > 0 && cfg.vMode.Some? then
      c.(selectKeys := SelectKeys(cfg.vMode.value(c.preedit), c.pageSize))
    else c
  }

  function Received(cfg: Config, proto: Proto): Option<Context> {
    var c := WithMenu(WithComposition(NO_CONTEXT, proto.composition), proto.menu).(preview := proto.preview);
    if c.preedit == "" && c.candidates == [] then None else Some(WithSelectKeys(cfg, c))
  }

  function ContextCall(cfg: Config, s: State, rpc: ContextRpc): State {
    var ledger := if rpc.fate == Lost then s.ledger else After(s.ledger, GetContext(rpc.harvest));
    s.(ledger := ledger, cached := if rpc.fate == Replied then Received(cfg, rpc.proto) else None)
  }

  function Preedit(cached: Option<Context>): string {
    match cached case None => "" case Some(c) => c.preedit
  }

  function StyleOf(cfg: Config, keycode: int): Style {
    if keycode in cfg.bindings then cfg.bindings[keycode] else Noop
  }

  /** `HandleAsciiModeToggle` with a cached context. */
  function Toggle(s: State, style: Style, e: Event): State {
    match style
    case InlineAscii => s
    case CommitCode => CommitCall(KeyCall(s, e.key).0, e.commit, false).(cached := None)
    case CommitText =>
      var pressed := KeyCall(s, e.key).0;
      CommitCall(pressed.(engine := ClearInput(pressed.engine)), e.commit, true).(cached := None)
    case Clear =>
      var told := CommitCall(KeyCall(s, e.key).0, e.commit, false);
      told.(engine := ClearInput(told.engine), cached := None)
    case Noop => s.(cached := None)
  }

  /** The state after the three calls of a forwarded key. */
  function Fetched(cfg: Config, s: State, e: Event): State {
    ContextCall(cfg, CommitCall(KeyCall(s, e.key).0, e.commit, true), e.context)
  }

  predicate TakenUp(cfg: Config, s: State, e: Event) {
    KeyCall(s, e.key).1 || Preedit(Fetched(cfg, s, e).cached) != Preedit(s.cached)
  }

  /** The engine is made to show the fetched context. */
  function Show(g: Engine, cached: Option<Context>): Engine {
    match cached
    case Some(c) =>
      var shown := SetInput(g, if c.preedit == "" then " " else c.preedit, c.cursorPos);
      if c.selectKeys != "" then shown.(selectKeys := c.selectKeys) else shown
    case None => if Composing(g) then ClearInput(g) else g
  }

  function Forward(cfg: Config, s: State, e: Event): (State, bool) {
    var f := Fetched(cfg, s, e);
    if TakenUp(cfg, s, e) then (f.(engine := Show(f.engine, f.cached)), true) else (f, false)
  }

  function Arrive(s: State, e: Event): State {
    if e.cleared then s.(engine := ClearInput(s.engine)) else s
  }

  predicate Toggles(s: State, e: Event) {
    e.asciiNow != s.asciiWasOn
  }

  predicate Forwarded(s: State, e: Event) {
    !Toggles(s, e) && !e.release && !ModifierOnly(e.keycode) && !e.asciiNow
  }

  /** `ProcessKeyEvent`; the flag is `kAccepted`. */
  function Handle(cfg: Config, before: State, e: Event): (State, bool) {
    var s := Arrive(before, e);
    if !cfg.isOpen then (s, false)
    else if Toggles(s, e) then
      var toggled := if e.asciiNow && s.cached.Some? then Toggle(s, StyleOf(cfg, e.keycode), e) else s;
      (toggled.(asciiWasOn := e.asciiNow), true)
    else if Forwarded(s, e) then Forward(cfg, s, e)
    else (s, false)
  }

  /** Requests that reach the backend after the client has given up on them come in at any time. */
  datatype Move = Press(e: Event) | Late(op: Op)

  function Apply(cfg: Config, s: State, m: Move): State {
    match m
    case Press(e) => Handle(cfg, s, e).0
    case Late(op) =>
      s.(ledger := After(s.ledger, op),
         outcomes := match op
                     case GetCommit(p) =>
                       (match Take(s.ledger, p).1 case None => s.outcomes case Some(t) => s.outcomes + [Unread(t)])
                     case _ => s.outcomes)
  }

  function Run(cfg: Config, s: State, moves: seq<Move>): State {
    if moves == [] then s else Apply(cfg, Run(cfg, s, moves[..|moves| - 1]), moves[|moves| - 1])
  }

  /** A new processor; ASCII mode may be on, the engine and a reused session may be in any state. */
  predicate New(s: State) {
    s.cached == None && s.outcomes == []
  }

  // ----- commit text is conserved -----

  function Texts(outcomes: seq<Outcome>): (r: seq<string>)
    ensures |r| == |outcomes|
  {
    if outcomes == [] then [] else Texts(outcomes[..|outcomes| - 1]) + [outcomes[|outcomes| - 1].text]
  }

  function EmittedTexts(outcomes: seq<Outcome>): seq<string> {
    if outcomes == [] then []
    else EmittedTexts(outcomes[..|outcomes| - 1])
         + (if outcomes[|outcomes| - 1].Emitted? then [outcomes[|outcomes| - 1].text] else [])
  }

  /** Every taken text has one outcome, in order; the engine committed exactly the emitted ones. */
  ghost predicate Accounted(s: State) {
    Balanced(s.ledger) && Texts(s.outcomes) == s.ledger.taken && EmittedTexts(s.outcomes) == s.engine.committed
  }

  lemma OneMore(outcomes: seq<Outcome>, o: Outcome)
    ensures Texts(outcomes + [o]) == Texts(outcomes) + [o.text]
    ensures EmittedTexts(outcomes + [o]) == EmittedTexts(outcomes) + (if o.Emitted? then [o.text] else [])
  {
    assert (outcomes + [o])[..|outcomes|] == outcomes;
  }

  lemma KeyCallKeeps(s: State, rpc: KeyRpc)
    requires Accounted(s)
    ensures Accounted(KeyCall(s, rpc).0)
  {
    OpKeeps(s.ledger, ProcessKey(rpc.run));
  }

  lemma CommitCallKeeps(s: State, rpc: CommitRpc, emit: bool)
    requires Accounted(s)
    ensures Accounted(CommitCall(s, rpc, emit))
  {
    TakeKeeps(s.ledger, rpc.harvest);
    var (ledger, text) := Take(s.ledger, rpc.harvest);
    if text.Some? {
      OutcomeKeeps(s, ledger, Unread(text.value));
      OutcomeKeeps(s, ledger, Emitted(text.value));
      OutcomeKeeps(s, ledger, Discarded(text.value));
    }
  }

  lemma OutcomeKeeps(s: State, ledger: Ledger, o: Outcome)
    requires Accounted(s) && Balanced(ledger) && ledger.taken == s.ledger.taken + [o.text]
    ensures !o.Emitted? ==> Accounted(s.(ledger := ledger, outcomes := s.outcomes + [o]))
    ensures o.Emitted? ==>
              Accounted(s.(ledger := ledger, outcomes := s.outcomes + [o],
                           engine := s.engine.(committed := s.engine.committed + [o.text])))
  {
    OneMore(s.outcomes, o);
    assert EmittedTexts(s.outcomes) + [] == EmittedTexts(s.outcomes);
  }

  lemma ContextCallKeeps(cfg: Config, s: State, rpc: ContextRpc)
    requires Accounted(s)
    ensures Accounted(ContextCall(cfg, s, rpc))
  {
    OpKeeps(s.ledger, GetContext(rpc.harvest));
  }

  lemma ToggleKeeps(s: State, style: Style, e: Event)
    requires Accounted(s)
    ensures Accounted(Toggle(s, style, e))
  {
    KeyCallKeeps(s, e.key);
    var pressed := KeyCall(s, e.key).0;
    CommitCallKeeps(pressed, e.commit, false);
    CommitCallKeeps(pressed.(engine := ClearInput(pressed.engine)), e.commit, true);
  }

  lemma FetchedKeeps(cfg: Config, s: State, e: Event)
    requires Accounted(s)
    ensures Accounted(Fetched(cfg, s, e))
  {
    var pressed := KeyCall(s, e.key).0;
    KeyCallKeeps(s, e.key);
    CommitCallKeeps(pressed, e.commit, true);
    ContextCallKeeps(cfg, CommitCall(pressed, e.commit, true), e.context);
  }

  lemma ForwardKeeps(cfg: Config, s: State, e: Event)
    requires Accounted(s)
    ensures Accounted(Forward(cfg, s, e).0)
  {
    FetchedKeeps(cfg, s, e);
    var f := Fetched(cfg, s, e);
    assert Show(f.engine, f.cached).committed == f.engine.committed;
  }

  lemma LateKeeps(cfg: Config, s: State, op: Op)
    requires Accounted(s)
    ensures Accounted(Apply(cfg, s, Late(op)))
  {
    OpKeeps(s.ledger, op);
    if op.GetCommit? {
      TakeKeeps(s.ledger, op.harvest);
      var text := Take(s.ledger, op.harvest).1;
      if text.Some? {
        OneMore(s.outcomes, Unread(text.value));
      }
    }
  }

  lemma MoveKeeps(cfg: Config, s: State, m: Move)
    requires Accounted(s)
    ensures Accounted(Apply(cfg, s, m))
  {
    match m
    case Press(e) =>
      ToggleKeeps(Arrive(s, e), StyleOf(cfg, e.keycode), e);
      ForwardKeeps(cfg, Arrive(s, e), e);
    case Late(op) => LateKeeps(cfg, s, op);
  }

  /** In every run, whatever is lost or late: taken texts and the pending text are all that was appended. */
  lemma {:induction false} CommitTextIsConserved(cfg: Config, start: State, moves: seq<Move>)
    requires Accounted(start)
    ensures var s := Run(cfg, start, moves);
            && Accounted(s)
            && Concat(Texts(s.outcomes)) + Pending(s.ledger) == s.ledger.appended
            && forall i :: 0 <= i < |s.outcomes| ==> Texts(s.outcomes)[i] != ""
  {
    if moves != [] {
      CommitTextIsConserved(cfg, start, moves[..|moves| - 1]);
      MoveKeeps(cfg, Run(cfg, start, moves[..|moves| - 1]), moves[|moves| - 1]);
    }
  }

  lemma {:induction false} EmittedIsShorter(outcomes: seq<Outcome>)
    requires forall i :: 0 <= i < |outcomes| ==> Texts(outcomes)[i] != ""
    ensures |Concat(EmittedTexts(outcomes))| <= |Concat(Texts(outcomes))|
    ensures |Concat(EmittedTexts(outcomes))| == |Concat(Texts(outcomes))| <==> forall o :: o in outcomes ==> o.Emitted?
    ensures (forall o :: o in outcomes ==> o.Emitted?) ==> EmittedTexts(outcomes) == Texts(outcomes)
  {
    if outcomes != [] {
      var front, last := outcomes[..|outcomes| - 1], outcomes[|outcomes| - 1];
      assert outcomes == front + [last];
      OneMore(front, last);
      forall i | 0 <= i < |front|
        ensures Texts(front)[i] != ""
      {
        assert Texts(front)[i] == Texts(outcomes)[i];
      }
      assert Texts(outcomes)[|front|] == last.text;
      EmittedIsShorter(front);
      ConcatAppend(Texts(front), last.text);
      ConcatAppend(EmittedTexts(front), last.text);
      assert EmittedTexts(front) + [] == EmittedTexts(front);
      assert (forall o :: o in outcomes ==> o.Emitted?) <==> last.Emitted? && forall o :: o in front ==> o.Emitted?;
    }
  }

  // ----- what becomes of the text a move takes -----

  /** A switch to ASCII that throws the backend's text away. */
  predicate Discards(cfg: Config, s: State, e: Event) {
    Toggles(s, e) && StyleOf(cfg, e.keycode) in {CommitCode, Clear}
  }

  /** The events that make a commit call. */
  predicate AsksForCommit(cfg: Config, s: State, e: Event) {
    && cfg.isOpen
    && (Forwarded(s, e)
        || (&& Toggles(s, e) && e.asciiNow && s.cached.Some?
            && StyleOf(cfg, e.keycode) in {CommitCode, CommitText, Clear}))
  }

  /** What a commit call on this ledger settles: the waiting text, if there is one and the request arrives. */
  function Settled(l: Ledger, rpc: CommitRpc, emit: bool): seq<Outcome> {
    var text := Pending(l) + Produced(rpc.harvest);
    if rpc.fate == Lost || text == "" then []
    else [if rpc.fate == NoReply then Unread(text) else if emit then Emitted(text) else Discarded(text)]
  }

  /** The outcomes of a move, read off the move and the state before it. */
  function MoveOutcomes(cfg: Config, s: State, m: Move): seq<Outcome> {
    match m
    case Press(e) =>
      if AsksForCommit(cfg, s, e) then Settled(KeyCall(s, e.key).0.ledger, e.commit, !Discards(cfg, s, e)) else []
    case Late(GetCommit(p)) => Settled(s.ledger, CommitRpc(NoReply, p), false)
    case Late(_) => []
  }

  lemma CommitCallSettles(s: State, rpc: CommitRpc, emit: bool)
    requires Accounted(s)
    ensures CommitCall(s, rpc, emit).outcomes == s.outcomes + Settled(s.ledger, rpc, emit)
  {
    TakeKeeps(s.ledger, rpc.harvest);
    assert s.outcomes + [] == s.outcomes;
    assert Pending(s.ledger) + "" == Pending(s.ledger);
  }

  lemma ToggleSettles(s: State, style: Style, e: Event)
    requires Accounted(s)
    ensures Toggle(s, style, e).outcomes
            == s.outcomes + if style in {CommitCode, CommitText, Clear}
                            then Settled(KeyCall(s, e.key).0.ledger, e.commit, style == CommitText) else []
  {
    KeyCallKeeps(s, e.key);
    var pressed := KeyCall(s, e.key).0;
    CommitCallSettles(pressed, e.commit, false);
    CommitCallSettles(pressed.(engine := ClearInput(pressed.engine)), e.commit, true);
    assert s.outcomes + [] == s.outcomes;
  }

  lemma ForwardSettles(cfg: Config, s: State, e: Event)
    requires Accounted(s)
    ensures Forward(cfg, s, e).0.outcomes == s.outcomes + Settled(KeyCall(s, e.key).0.ledger, e.commit, true)
  {
    KeyCallKeeps(s, e.key);
    CommitCallSettles(KeyCall(s, e.key).0, e.commit, true);
  }

  lemma EventSettles(cfg: Config, s: State, e: Event)
    requires Accounted(s)
    ensures Handle(cfg, s, e).0.outcomes == s.outcomes + MoveOutcomes(cfg, s, Press(e))
  {
    var a := Arrive(s, e);
    assert a.outcomes + [] == a.outcomes == s.outcomes;
    assert KeyCall(a, e.key).0.ledger == KeyCall(s, e.key).0.ledger;
    if cfg.isOpen && Toggles(s, e) {
      ToggleSettles(a, StyleOf(cfg, e.keycode), e);
    } else if cfg.isOpen && Forwarded(s, e) {
      ForwardSettles(cfg, a, e);
    }
  }

  /**
   * A move settles at most one text, and exactly when one is waiting and a commit request arrives: unread if its
   * reply does not arrive, discarded by a switch to ASCII in a discarding style, emitted otherwise.
   */
  lemma OutcomeOfAMove(cfg: Config, s: State, m: Move)
    requires Accounted(s)
    ensures Apply(cfg, s, m).outcomes == s.outcomes + MoveOutcomes(cfg, s, m)
  {
    match m
    case Press(e) => EventSettles(cfg, s, e);
    case Late(op) =>
      assert s.outcomes + [] == s.outcomes;
      if op.GetCommit? {
        CommitCallSettles(s, CommitRpc(NoReply, op.harvest), false);
      }
  }

  /** Every reply to a commit request arrives. */
  predicate RepliesArrive(moves: seq<Move>) {
    forall i :: 0 <= i < |moves| ==>
                  match moves[i] case Press(e) => e.commit.fate != NoReply case Late(op) => !op.GetCommit?
  }

  /** If no reply is lost, every taken text is emitted or explicitly discarded exactly once, in order. */
  lemma {:induction false} NothingGoesUnread(cfg: Config, start: State, moves: seq<Move>)
    requires Accounted(start) && New(start) && RepliesArrive(moves)
    ensures var s := Run(cfg, start, moves);
            && Texts(s.outcomes) == s.ledger.taken && EmittedTexts(s.outcomes) == s.engine.committed
            && forall o :: o in s.outcomes ==> o.Emitted? || o.Discarded?
  {
    CommitTextIsConserved(cfg, start, moves);
    if moves != [] {
      var front, last := moves[..|moves| - 1], moves[|moves| - 1];
      assert last == moves[|moves| - 1];
      NothingGoesUnread(cfg, start, front);
      CommitTextIsConserved(cfg, start, front);
      OutcomeOfAMove(cfg, Run(cfg, start, front), last);
    }
  }

  /** The move takes a text that the user will not see. */
  predicate Loses(cfg: Config, s: State, m: Move) {
    var o := MoveOutcomes(cfg, s, m);
    o != [] && !o[0].Emitted?
  }

  predicate NothingLost(cfg: Config, start: State, moves: seq<Move>) {
    moves != [] ==>
      var front := moves[..|moves| - 1];
      NothingLost(cfg, start, front) && !Loses(cfg, Run(cfg, start, front), moves[|moves| - 1])
  }

  ghost predicate AllEmitted(outcomes: seq<Outcome>) {
    forall o :: o in outcomes ==> o.Emitted?
  }

  lemma {:induction false} AllEmittedIff(cfg: Config, start: State, moves: seq<Move>)
    requires Accounted(start) && New(start)
    ensures AllEmitted(Run(cfg, start, moves).outcomes) <==> NothingLost(cfg, start, moves)
  {
    if moves != [] {
      var front, last := moves[..|moves| - 1], moves[|moves| - 1];
      var s := Run(cfg, start, front);
      AllEmittedIff(cfg, start, front);
      CommitTextIsConserved(cfg, start, front);
      OutcomeOfAMove(cfg, s, last);
      var more := MoveOutcomes(cfg, s, last);
      assert AllEmitted(s.outcomes + more) <==> AllEmitted(s.outcomes) && AllEmitted(more);
      assert AllEmitted(more) <==> !Loses(cfg, s, last) by {
        assert more == [] || more == [more[0]];
      }
    }
  }

  /**
   * The user has been given everything appended, but for what is still pending, exactly when no move of the run took
   * a waiting text without the reply arriving or in a discarding switch.
   */
  lemma UserSeesEverythingIff(cfg: Config, start: State, moves: seq<Move>)
    requires Accounted(start) && New(start)
    ensures var s := Run(cfg, start, moves);
            Concat(s.engine.committed) + Pending(s.ledger) == s.ledger.appended <==> NothingLost(cfg, start, moves)
  {
    var s := Run(cfg, start, moves);
    CommitTextIsConserved(cfg, start, moves);
    EmittedIsShorter(s.outcomes);
    AllEmittedIff(cfg, start, moves);
  }

  // ----- the engine's input follows the backend -----

  ghost predicate Synced(s: State) {
    s.engine.input == Preedit(s.cached)
  }

  /** Somebody else took a text away that the cached context still shows. */
  predicate TakenAway(s: State, e: Event) {
    e.cleared && Preedit(s.cached) != ""
  }

  /** A reply the engine cannot show as it is: candidates without a preedit. */
  predicate Unshowable(cfg: Config, rpc: ContextRpc) {
    rpc.fate == Replied && match Received(cfg, rpc.proto) case None => false case Some(c) => c.preedit == ""
  }

  /** What keeps the engine in step: a condition on the event and the state before it. */
  predicate InStep(cfg: Config, s: State, e: Event) {
    if cfg.isOpen && Toggles(s, e) && e.asciiNow && s.cached.Some? then
      match StyleOf(cfg, e.keycode)
      case Clear => true
      case CommitText => true
      case InlineAscii => !TakenAway(s, e)
      case CommitCode => e.cleared || Preedit(s.cached) == ""
      case Noop => e.cleared || Preedit(s.cached) == ""
    else if cfg.isOpen && Forwarded(s, e) && TakenUp(cfg, s, e) then !Unshowable(cfg, e.context)
    else !TakenAway(s, e)
  }

  /** Only what follows the calls touches the input, and only the context call the cached context. */
  lemma ForwardedInput(cfg: Config, s: State, e: Event)
    ensures Fetched(cfg, s, e).engine.(committed := s.engine.committed) == s.engine
    ensures Fetched(cfg, s, e).cached == if e.context.fate == Replied then Received(cfg, e.context.proto) else None
  {
  }

  lemma ToggledInput(s: State, style: Style, e: Event)
    ensures Toggle(s, style, e).engine.input == if style in {CommitText, Clear} then "" else s.engine.input
    ensures Toggle(s, style, e).cached == if style == InlineAscii then s.cached else None
  {
  }

  lemma ToggleStaysSyncedIff(cfg: Config, s: State, e: Event)
    requires Synced(s) && cfg.isOpen && Toggles(s, e)
    ensures Synced(Handle(cfg, s, e).0) <==> InStep(cfg, s, e)
  {
    ToggledInput(Arrive(s, e), StyleOf(cfg, e.keycode), e);
  }

  lemma ForwardStaysSyncedIff(cfg: Config, s: State, e: Event)
    requires Synced(s) && cfg.isOpen && Forwarded(s, e)
    ensures Synced(Handle(cfg, s, e).0) <==> InStep(cfg, s, e)
  {
    ForwardedInput(cfg, Arrive(s, e), e);
    ForwardedInput(cfg, s, e);
  }

  /** Whatever failed or timed out: an event keeps the engine's input in step exactly under this condition. */
  lemma StaysSyncedIff(cfg: Config, s: State, e: Event)
    requires Synced(s)
    ensures Synced(Handle(cfg, s, e).0) <==> InStep(cfg, s, e)
  {
    if cfg.isOpen && Toggles(s, e) {
      ToggleStaysSyncedIff(cfg, s, e);
    } else if cfg.isOpen && Forwarded(s, e) {
      ForwardStaysSyncedIff(cfg, s, e);
    }
  }

  /** A key that is taken up brings the engine back in step from any state, with the caret where the backend has it. */
  lemma TakenUpKeyResynchronises(cfg: Config, s: State, e: Event)
    requires cfg.isOpen && Forwarded(s, e) && TakenUp(cfg, s, e)
    ensures var (after, accepted) := Handle(cfg, s, e);
            && accepted && (Synced(after) <==> !Unshowable(cfg, e.context))
            && (after.cached.Some? ==>
                  var c := after.cached.value;
                  && after.engine.caret <= |after.engine.input|
                  && (0 <= c.cursorPos <= |after.engine.input| ==> after.engine.caret == c.cursorPos))
  {
  }

  /** Passed-through keys leave the preedit the engine shows as it was. */
  lemma RejectedKeyChangesNothing(cfg: Config, s: State, e: Event)
    requires !Handle(cfg, s, e).1 && !e.cleared
    ensures var after := Handle(cfg, s, e).0;
            after.engine.(committed := s.engine.committed) == s.engine && Preedit(after.cached) == Preedit(s.cached)
  {
  }

  /** One key per candidate of the page, as far as there are ten: different ones, and letters exactly if wanted. */
  ghost predicate GoodKeys(keys: string, letters: bool, pageSize: nat) {
    && |keys| == (if pageSize > 10 then 10 else pageSize)
    && (forall i :: 0 <= i < |keys| ==> ('a' <= keys[i] <= 'j' <==> letters))
    && (forall i, j :: 0 <= i < j < |keys| ==> keys[i] != keys[j])
  }

  lemma SelectKeysAreGood(letters: bool, pageSize: nat)
    ensures GoodKeys(SelectKeys(letters, pageSize), letters, pageSize)
  {
  }

  /** With a v-mode test the schema ends up with keys for the page: letters exactly if the preedit is in v-mode. */
  lemma SelectKeysFollowThePreedit(cfg: Config, s: State, e: Event)
    requires cfg.isOpen && Forwarded(s, e) && TakenUp(cfg, s, e) && cfg.vMode.Some?
    ensures var after := Handle(cfg, s, e).0;
            after.cached.Some? && after.cached.value.preedit != "" && after.cached.value.pageSize > 0 ==>
              var c := after.cached.value;
              GoodKeys(after.engine.selectKeys, cfg.vMode.value(c.preedit), c.pageSize)
  {
    var f := Fetched(cfg, Arrive(s, e), e);
    ForwardedInput(cfg, Arrive(s, e), e);
    ForwardedInput(cfg, s, e);
    if f.cached.Some? && f.cached.value.preedit != "" && f.cached.value.pageSize > 0 {
      var c := f.cached.value;
      SelectKeysAreGood(cfg.vMode.value(c.preedit), c.pageSize);
      assert c.selectKeys == SelectKeys(cfg.vMode.value(c.preedit), c.pageSize) != "";
    }
  }

  /** Whether ASCII mode was on at the last event, or else at the start. */
  predicate WasOn(initially: bool, moves: seq<Move>) {
    if moves == [] then initially
    else match moves[|moves| - 1] case Press(e) => e.asciiNow case Late(_) => WasOn(initially, moves[..|moves| - 1])
  }

  /**
   * A condition on the event and the mode before it. ASCII mode is entered by a key with a bound style; for
   * `commit_code` the processor before this one has committed and cleared the input, for `inline_ascii` it has left
   * it alone. At any other event nobody else clears, and the fetched context can be shown.
   */
  predicate Disciplined(cfg: Config, e: Event, wasOn: bool) {
    if e.asciiNow && !wasOn then
      match StyleOf(cfg, e.keycode)
      case Clear => true
      case CommitText => true
      case CommitCode => e.cleared
      case InlineAscii => !e.cleared
      case Noop => false
    else !e.cleared && !Unshowable(cfg, e.context)
  }

  predicate AllDisciplined(cfg: Config, initially: bool, moves: seq<Move>) {
    moves != [] ==>
      var front := moves[..|moves| - 1];
      var last := moves[|moves| - 1];
      AllDisciplined(cfg, initially, front) && (last.Press? ==> Disciplined(cfg, last.e, WasOn(initially, front)))
  }

  lemma ModeOfAMove(cfg: Config, s: State, m: Move)
    requires cfg.isOpen
    ensures Apply(cfg, s, m).asciiWasOn == if m.Press? then m.e.asciiNow else s.asciiWasOn
  {
  }

  lemma {:induction false} ModeIsRemembered(cfg: Config, start: State, moves: seq<Move>)
    requires cfg.isOpen
    ensures Run(cfg, start, moves).asciiWasOn == WasOn(start.asciiWasOn, moves)
  {
    if moves != [] {
      ModeIsRemembered(cfg, start, moves[..|moves| - 1]);
      ModeOfAMove(cfg, Run(cfg, start, moves[..|moves| - 1]), moves[|moves| - 1]);
    }
  }

  lemma {:induction false} EngineFollowsTheBackend(cfg: Config, start: State, moves: seq<Move>)
    requires cfg.isOpen && Synced(start) && AllDisciplined(cfg, start.asciiWasOn, moves)
    ensures Synced(Run(cfg, start, moves))
  {
    if moves != [] {
      var front, last := moves[..|moves| - 1], moves[|moves| - 1];
      EngineFollowsTheBackend(cfg, start, front);
      ModeIsRemembered(cfg, start, front);
      if last.Press? {
        StaysSyncedIff(cfg, Run(cfg, start, front), last.e);
      }
    }
  }

  /** Typing "a", with the reply to the key itself lost. */
  const TYPED := Press(Event(97, false, false, false,
                             KeyRpc(NoReply, Some(KeyRun(Pumped("", ""), None, Some(Pumped("", "")), None)), true),
                             CommitRpc(Lost, Pumped("", "")),
                             ContextRpc(Replied, Pumped("", ""), Proto(Some(Composition("a", 1, 0, 1)), None, ""))))

  /** ASCII mode found on at a key without a bound style. */
  const SWITCHED := Press(Event(0xFFE1, false, true, false, KeyRpc(Lost, None, false), CommitRpc(Lost, Pumped("", "")),
                                ContextRpc(Lost, Pumped("", ""), Proto(None, None, ""))))

  /** A switch to ASCII by such a key leaves the engine showing a text the processor has forgotten. */
  lemma UnboundToggleDesynchronises()
    ensures var cfg := Config(true, map[], None);
            var start := State(EMPTY, None, Engine("", 0, false, "", []), false, []);
            var s := Run(cfg, start, [TYPED, SWITCHED]);
            s.engine.input == "a" && s.cached == None && Handle(cfg, start, TYPED.e).1
  {
    var cfg := Config(true, map[], None);
    var start := State(EMPTY, None, Engine("", 0, false, "", []), false, []);
    assert [TYPED, SWITCHED][..1] == [TYPED] && [TYPED][..0] == [];
    assert Run(cfg, start, [TYPED]) == Apply(cfg, Run(cfg, start, []), TYPED);
    assert Run(cfg, start, [TYPED, SWITCHED]) == Apply(cfg, Run(cfg, start, [TYPED]), SWITCHED);
  }

  // ----- the objects -----

  class RemoteSharedState {
    var context: Context
    var hasContext: bool

    ghost function Abs(): Option<Context>
      reads this
    {
      if hasContext then Some(context) else None
    }

    constructor ()
      ensures Abs() == None
    {
      context, hasContext := NO_CONTEXT, false;
    }

    method SetContext(c: Context)
      modifies this
      ensures Abs() == Some(c)
    {
      context, hasContext := c, true;
    }

    method ClearContext()
      modifies this
      ensures Abs() == None && context == NO_CONTEXT
    {
      context, hasContext := NO_CONTEXT, false;
    }
  }

  class EngineContext {
    var input: string
    var caret: nat
    var segments: bool
    var selectKeys: string
    var committed: seq<string>

    ghost function Abs(): Engine
      reads this
    {
      Engine(input, caret, segments, selectKeys, committed)
    }

    constructor ()
      ensures Abs() == Engine("", 0, false, "", [])
    {
      input, caret, segments, selectKeys, committed := "", 0, false, "", [];
    }

    predicate IsComposing()
      reads this
    {
      input != "" || segments
    }

    method ClearAll()
      modifies this
      ensures Abs() == ClearInput(old(Abs()))
    {
      input, caret, segments := "", 0, false;
    }

    method SetText(text: string)
      modifies this
      ensures Abs() == old(Abs()).(input := text, caret := |text|, segments := true)
    {
      input, caret, segments := text, |text|, true;
    }

    method SetCaretPos(pos: nat)
      modifies this
      ensures Abs() == old(Abs()).(caret := if pos > |old(input)| then |old(input)| else pos)
    {
      caret := if pos > |input| then |input| else pos;
    }

    method SetSelectKeys(keys: string)
      modifies this
      ensures Abs() == old(Abs()).(selectKeys := keys)
    {
      selectKeys := keys;
    }

    method Commit(text: string)
      modifies this
      ensures Abs() == old(Abs()).(committed := old(committed) + [text])
    {
      committed := committed + [text];
    }
  }

  class RemoteProcessor {
    const cfg: Config
    const state: RemoteSharedState
    const ctx: EngineContext
    const backend: ImmSession
    var asciiWasOn: bool
    ghost var outcomes: seq<Outcome>

    ghost function Abs(): State
      reads this, state, ctx, backend
    {
      State(backend.Abs(), state.Abs(), ctx.Abs(), asciiWasOn, outcomes)
    }

    /** `asciiMode` is the option as the engine has it; the session may be a new one or one still open. */
    constructor (cfg: Config, ctx: EngineContext, backend: ImmSession, asciiMode: bool)
      ensures this.cfg == cfg && this.ctx == ctx && this.backend == backend && fresh(state)
      ensures Abs() == State(backend.Abs(), None, ctx.Abs(), asciiMode, []) && New(Abs())
    {
      this.cfg, this.ctx, this.backend := cfg, ctx, backend;
      state := new RemoteSharedState();
      asciiWasOn, outcomes := asciiMode, [];
    }

    method CallProcessKey(rpc: KeyRpc) returns (accepted: bool)
      modifies backend
      ensures (Abs(), accepted) == KeyCall(old(Abs()), rpc)
    {
      if rpc.fate == Lost {
        return false;
      }
      if rpc.run.Some? {
        backend.ProcessVk(rpc.run.value);
      }
      accepted := rpc.fate == Replied && rpc.accepted;
    }

    /** The text the client gets, if any; what it does with it is settled by its caller. */
    method CallGetCommit(rpc: CommitRpc, ghost emit: bool) returns (text: Option<string>)
      modifies this`outcomes, backend
      ensures Abs().(engine := old(ctx.Abs())) == CommitCall(old(Abs()), rpc, emit).(engine := old(ctx.Abs()))
      ensures CommitCall(old(Abs()), rpc, emit).engine
              == if text.Some? && text.value != "" && emit
                 then old(ctx.Abs()).(committed := old(ctx.committed) + [text.value])
                 else old(ctx.Abs())
    {
      text := None;
      if rpc.fate != Lost {
        var taken := backend.TakeCommit(rpc.harvest);
        if taken.Some? {
          var t := taken.value;
          outcomes := outcomes
                      + [if rpc.fate == NoReply then Unread(t)
                         else if emit && t != "" then Emitted(t) else Discarded(t)];
        }
        if rpc.fate == Replied {
          text := taken;
        }
      }
    }

    method SyncCommitFromBackend(rpc: CommitRpc)
      modifies this`outcomes, backend, ctx
      ensures Abs() == CommitCall(old(Abs()), rpc, true)
    {
      var text := CallGetCommit(rpc, true);
      if text.Some? && text.value != "" {
        ctx.Commit(text.value);
      }
    }

    method SyncContextFromBackend(rpc: ContextRpc)
      modifies state, backend
      ensures Abs() == ContextCall(cfg, old(Abs()), rpc)
    {
      if rpc.fate != Lost {
        backend.HarvestMessages(rpc.harvest);
      }
      if rpc.fate != Replied {
        state.ClearContext();
        return;
      }
      var rc := NO_CONTEXT;
      if rpc.proto.composition.Some? {
        var comp := rpc.proto.composition.value;
        rc := rc.(preedit := comp.preedit, cursorPos := comp.cursorPos,
                  selStart := comp.selStart, selEnd := comp.selEnd);
      }
      if rpc.proto.menu.Some? {
        var menu := rpc.proto.menu.value;
        rc := rc.(pageSize := menu.pageSize, pageNo := menu.pageNo, isLastPage := menu.isLastPage,
                  highlighted := menu.highlighted, selectKeys := menu.selectKeys);
        var candidates := CopyCandidates(menu);
        rc := rc.(candidates := candidates);
      }
      rc := rc.(preview := rpc.proto.preview);
      if rc.preedit != "" && rc.pageSize > 0 && cfg.vMode.Some? {
        rc := rc.(selectKeys := SelectKeys(cfg.vMode.value(rc.preedit), rc.pageSize));
      }
      if rc.preedit == "" && rc.candidates == [] {
        state.ClearContext();
      } else {
        state.SetContext(rc);
      }
    }

    method CopyCandidates(menu: Menu) returns (candidates: seq<Candidate>)
      ensures candidates == menu.candidates[..menu.numCandidates]
    {
      candidates := [];
      var i := 0;
      while i < menu.numCandidates
        invariant 0 <= i <= menu.numCandidates && candidates == menu.candidates[..i]
      {
        candidates := candidates + [menu.candidates[i]];
        i := i + 1;
      }
    }

    method HandleAsciiModeToggle(e: Event)
      modifies this`outcomes, state, ctx, backend
      ensures Abs() == if old(state.hasContext) then Toggle(old(Abs()), StyleOf(cfg, e.keycode), e) else old(Abs())
    {
      var style := if e.keycode in cfg.bindings then cfg.bindings[e.keycode] else Noop;
      if !state.hasContext || style == InlineAscii {
        return;
      }
      if style == CommitCode {
        var _ := CallProcessKey(e.key);
        var _ := CallGetCommit(e.commit, false);
      } else if style == CommitText {
        var _ := CallProcessKey(e.key);
        ctx.ClearAll();
        SyncCommitFromBackend(e.commit);
      } else if style == Clear {
        var _ := CallProcessKey(e.key);
        var _ := CallGetCommit(e.commit, false);
        ctx.ClearAll();
      }
      state.ClearContext();
    }

    /** `before` is the state before the other processors had the event; `Arrive` is what they leave. */
    method ProcessKeyEvent(e: Event, ghost before: State) returns (accepted: bool)
      requires Abs() == Arrive(before, e)
      modifies this, state, ctx, backend
      ensures (Abs(), accepted) == Handle(cfg, before, e)
    {
      if !cfg.isOpen {
        return false;
      }
      if e.asciiNow != asciiWasOn {
        if e.asciiNow && state.hasContext {
          HandleAsciiModeToggle(e);
        }
        asciiWasOn := e.asciiNow;
        return true;
      }
      if e.release || ModifierOnly(e.keycode) || e.asciiNow {
        return false;
      }
      accepted := ForwardKey(e);
    }

    method ForwardKey(e: Event) returns (accepted: bool)
      modifies this, state, ctx, backend
      ensures (Abs(), accepted) == Forward(cfg, old(Abs()), e)
    {
      var oldPreedit := if state.hasContext then state.context.preedit else "";
      var answered := CallProcessKey(e.key);
      SyncCommitFromBackend(e.commit);
      SyncContextFromBackend(e.context);
      var contextChanged := if state.hasContext then state.context.preedit != oldPreedit else oldPreedit != "";
      if !answered && !contextChanged {
        return false;
      }
      ShowContext();
      accepted := true;
    }

    method ShowContext()
      modifies ctx
      ensures Abs() == old(Abs()).(engine := Show(old(ctx.Abs()), state.Abs()))
    {
      if state.hasContext {
        var rc := state.context;
        if rc.selectKeys != "" {
          ctx.SetSelectKeys(rc.selectKeys);
        }
        var text := if rc.preedit == "" then " " else rc.preedit;
        if ctx.IsComposing() {
          ctx.ClearAll();
        }
        ctx.SetText(text);
        if 0 <= rc.cursorPos < |text| {
          ctx.SetCaretPos(rc.cursorPos);
        }
      } else if ctx.IsComposing() {
        ctx.ClearAll();
      }
    }
  }
}
