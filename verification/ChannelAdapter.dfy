/** A backend behind a command queue: one worker thread, one-shot replies, callers that may give up. */
module ChannelAdapter {
  import opened Wrappers

  datatype KeyEvent = KeyEvent(keycode: int, modifier: int)

  datatype Command =
    | OpenSession
    | DestroySession(id: nat)
    | ProcessKey(id: nat, key: KeyEvent)
    | GetContext(id: nat)
    | GetCommit(id: nat)
    | SelectCandidate(id: nat, index: nat)

  datatype Context = Context(preedit: Option<string>, candidates: seq<string>)

  datatype Reply =
    | Done
    | Opened(session: Option<nat>)
    | Accepted(flag: bool)
    | Read(context: Context)
    | Committed(text: Option<string>)

  // What a one-shot channel of each type yields; a missing reply counts as a refusal.

  function SessionOf(r: Reply): Option<nat> {
    if r.Opened? then r.session else None
  }

  function Flag(r: Reply): bool {
    r.Accepted? && r.flag
  }

  function ContextOf(r: Reply): Context {
    if r.Read? then r.context else Context(None, [])
  }

  function TextOf(r: Reply): Option<string> {
    if r.Committed? then r.text else None
  }

  /** A reply that arrives is passed on as it is. */
  lemma RepliesPassThrough(session: Option<nat>, flag: bool, context: Context, text: Option<string>)
    ensures SessionOf(Opened(session)) == session && Flag(Accepted(flag)) == flag
    ensures ContextOf(Read(context)) == context && TextOf(Committed(text)) == text
  {
  }

  /** A caller whose reply never comes gets no session, a refusal, an empty context or no text. */
  lemma MissingReplies(id: nat, key: KeyEvent, index: nat)
    ensures SessionOf(Default(OpenSession)) == None && !Flag(Default(ProcessKey(id, key)))
    ensures ContextOf(Default(GetContext(id))) == Context(None, []) && TextOf(Default(GetCommit(id))) == None
    ensures !Flag(Default(SelectCandidate(id, index)))
  {
  }

  /** The wrapped backend; whatever decides its behaviour is part of its state `S`. */
  type Backend<!S> = (S, Command) -> (S, Reply)

  /** What a caller makes of a one-shot channel whose sender is gone. */
  function Default(cmd: Command): Reply {
    match cmd
    case OpenSession => Opened(None)
    case DestroySession(_) => Done
    case ProcessKey(_, _) => Accepted(false)
    case GetContext(_) => Read(Context(None, []))
    case GetCommit(_) => Committed(None)
    case SelectCandidate(_, _) => Accepted(false)
  }

  // ----- the backend used directly -----

  /** The commands applied one by one: the last state and all the replies. */
  function Direct<S>(step: Backend<S>, s: S, cmds: seq<Command>): (r: (S, seq<Reply>))
    ensures |r.1| == |cmds|
  {
    if cmds == [] then (s, [])
    else
      var (before, replies) := Direct(step, s, cmds[..|cmds| - 1]);
      var (after, reply) := step(before, cmds[|cmds| - 1]);
      (after, replies + [reply])
  }

  lemma DirectOneMore<S>(step: Backend<S>, s: S, cmds: seq<Command>, cmd: Command)
    ensures var (before, replies) := Direct(step, s, cmds);
            Direct(step, s, cmds + [cmd]) == (step(before, cmd).0, replies + [step(before, cmd).1])
  {
    assert (cmds + [cmd])[..|cmds|] == cmds;
  }

  /** Later commands do not change earlier replies. */
  lemma {:induction false} RepliesAreStable<S>(step: Backend<S>, s: S, cmds: seq<Command>, n: nat)
    requires n <= |cmds|
    ensures Direct(step, s, cmds).1[..n] == Direct(step, s, cmds[..n]).1
    decreases |cmds|
  {
    if n < |cmds| {
      RepliesAreStable(step, s, cmds[..|cmds| - 1], n);
      assert cmds[..|cmds| - 1][..n] == cmds[..n];
    } else {
      assert cmds[..n] == cmds;
    }
  }

  // ----- the adapter -----

  /**
   * `sent` is everything ever sent, of which the worker has executed the first `executed`. A call is named by its
   * place in `sent`; `slots` are the one-shot channels that hold a reply.
   */
  datatype Adapter<S> = Adapter(
    sent: seq<Command>, executed: nat, alive: bool, inner: S,
    slots: map<nat, Reply>, abandoned: set<nat>, returned: map<nat, Reply>)

  function Start<S>(s: S): Adapter<S> {
    Adapter([], 0, true, s, map[], {}, map[])
  }

  /** `Crash`: the backend panics in the middle of a command and leaves any state behind. */
  datatype Step<S> = Send(cmd: Command) | Work | Crash(left: S) | Return(call: nat) | Abandon(call: nat)

  predicate Waiting<S>(a: Adapter<S>, i: nat) {
    i < |a.sent| && !a.sent[i].DestroySession? && i !in a.returned && i !in a.abandoned
  }

  predicate Enabled<S>(a: Adapter<S>, t: Step<S>) {
    match t
    case Send(_) => true
    case Work => a.alive && a.executed < |a.sent|
    case Crash(_) => a.alive && a.executed < |a.sent|
    case Return(i) => Waiting(a, i) && (i in a.slots || !a.alive)
    case Abandon(i) => Waiting(a, i)
  }

  /** After a crash nothing can be sent any more; sending a destroy is then silently ignored. */
  function Apply<S>(step: Backend<S>, a: Adapter<S>, t: Step<S>): Adapter<S> {
    match t
    case Send(cmd) => if a.alive then a.(sent := a.sent + [cmd]) else a
    case Work =>
      if a.executed < |a.sent| then
        var (inner, reply) := step(a.inner, a.sent[a.executed]);
        a.(inner := inner, executed := a.executed + 1,
           slots := if Waiting(a, a.executed) then a.slots[a.executed := reply] else a.slots)
      else a
    case Crash(left) => a.(alive := false, inner := left)
    case Return(i) =>
      if i < |a.sent| then
        a.(returned := a.returned[i := if i in a.slots then a.slots[i] else Default(a.sent[i])])
      else a
    case Abandon(i) => a.(abandoned := a.abandoned + {i})
  }

  predicate Legal<S>(step: Backend<S>, a: Adapter<S>, steps: seq<Step<S>>) {
    steps != [] ==>
      var front := steps[..|steps| - 1];
      Legal(step, a, front) && Enabled(Run(step, a, front), steps[|steps| - 1])
  }

  function Run<S>(step: Backend<S>, a: Adapter<S>, steps: seq<Step<S>>): Adapter<S> {
    if steps == [] then a else Apply(step, Run(step, a, steps[..|steps| - 1]), steps[|steps| - 1])
  }

  // ----- the adapter against the backend -----

  /** The worker's state is that of the direct run over the executed commands, and slots hold that run's replies. */
  ghost predicate Follows<S>(step: Backend<S>, s: S, a: Adapter<S>) {
    && a.executed <= |a.sent|
    && (a.alive ==> a.inner == Direct(step, s, a.sent[..a.executed]).0)
    && (forall i :: i in a.slots ==> i < a.executed && a.slots[i] == Direct(step, s, a.sent[..a.executed]).1[i])
    && (forall i: nat :: Waiting(a, i) && i < a.executed ==> i in a.slots)
  }

  /** A returned reply is the direct run's, unless the worker died before executing the command. */
  ghost predicate ReturnedRight<S>(step: Backend<S>, s: S, a: Adapter<S>) {
    forall i :: i in a.returned ==>
                  && i < |a.sent| && i !in a.abandoned
                  && if i < a.executed then a.returned[i] == Direct(step, s, a.sent).1[i]
                     else !a.alive && a.returned[i] == Default(a.sent[i])
  }

  lemma SendFollows<S>(step: Backend<S>, s: S, a: Adapter<S>, cmd: Command)
    requires Follows(step, s, a) && ReturnedRight(step, s, a)
    ensures Follows(step, s, Apply(step, a, Send(cmd))) && ReturnedRight(step, s, Apply(step, a, Send(cmd)))
  {
    assert (a.sent + [cmd])[..a.executed] == a.sent[..a.executed];
    DirectOneMore(step, s, a.sent, cmd);
  }

  lemma WorkFollows<S>(step: Backend<S>, s: S, a: Adapter<S>)
    requires Follows(step, s, a) && ReturnedRight(step, s, a) && Enabled(a, Work)
    ensures Follows(step, s, Apply(step, a, Work)) && ReturnedRight(step, s, Apply(step, a, Work))
  {
    var n := a.executed;
    var done := a.sent[..n];
    assert a.sent[..n + 1] == done + [a.sent[n]];
    DirectOneMore(step, s, done, a.sent[n]);
    assert n !in a.returned;
    var after := Apply(step, a, Work);
    forall i | i in after.slots
      ensures i < after.executed && after.slots[i] == Direct(step, s, after.sent[..after.executed]).1[i]
    {
      assert i == n || i in a.slots;
    }
  }

  lemma OtherFollows<S>(step: Backend<S>, s: S, a: Adapter<S>, t: Step<S>)
    requires Follows(step, s, a) && ReturnedRight(step, s, a) && Enabled(a, t) && !t.Send? && !t.Work?
    ensures Follows(step, s, Apply(step, a, t)) && ReturnedRight(step, s, Apply(step, a, t))
  {
    RepliesAreStable(step, s, a.sent, a.executed);
    var after := Apply(step, a, t);
    forall i: nat | Waiting(after, i) && i < after.executed
      ensures i in after.slots
    {
      assert Waiting(a, i);
    }
  }

  /**
   * Every run of the adapter, with callers giving up at any point and even with a panicking backend, is the direct
   * run of the commands in the order they were sent.
   */
  lemma {:induction false} RunFollowsTheBackend<S>(step: Backend<S>, s: S, steps: seq<Step<S>>)
    requires Legal(step, Start(s), steps)
    ensures Follows(step, s, Run(step, Start(s), steps)) && ReturnedRight(step, s, Run(step, Start(s), steps))
  {
    if steps != [] {
      var front, last := steps[..|steps| - 1], steps[|steps| - 1];
      RunFollowsTheBackend(step, s, front);
      var a := Run(step, Start(s), front);
      match last
      case Send(cmd) => SendFollows(step, s, a, cmd);
      case Work => WorkFollows(step, s, a);
      case _ => OtherFollows(step, s, a, last);
    }
  }

  /** Two runs that send the same commands in the same order: same state once idle, same replies to whoever waited. */
  lemma SameOrderSameResults<S>(step: Backend<S>, s: S, one: seq<Step<S>>, other: seq<Step<S>>)
    requires Legal(step, Start(s), one) && Legal(step, Start(s), other)
    requires var (a, b) := (Run(step, Start(s), one), Run(step, Start(s), other));
             a.sent == b.sent && a.alive && b.alive
    ensures var (a, b) := (Run(step, Start(s), one), Run(step, Start(s), other));
            && (a.executed == b.executed ==> a.inner == b.inner)
            && forall i :: i in a.returned && i in b.returned ==> a.returned[i] == b.returned[i]
  {
    RunFollowsTheBackend(step, s, one);
    RunFollowsTheBackend(step, s, other);
  }

  predicate CanMove<S>(a: Adapter<S>, i: nat) {
    Enabled(a, Return(i)) || Enabled(a, Work)
  }

  /** Nobody waits for ever: a waiting call has its answer, or the worker has a command to execute. */
  lemma NoCallHangs<S>(step: Backend<S>, s: S, steps: seq<Step<S>>, call: nat)
    requires Legal(step, Start(s), steps) && Waiting(Run(step, Start(s), steps), call)
    ensures CanMove(Run(step, Start(s), steps), call)
  {
    RunFollowsTheBackend(step, s, steps);
  }

  lemma {:induction false} LegalBefore<S>(step: Backend<S>, a: Adapter<S>, steps: seq<Step<S>>, more: seq<Step<S>>)
    requires Legal(step, a, steps + more)
    ensures Legal(step, a, steps)
    decreases |more|
  {
    if more != [] {
      assert (steps + more)[..|steps + more| - 1] == steps + more[..|more| - 1];
      LegalBefore(step, a, steps, more[..|more| - 1]);
    } else {
      assert steps + more == steps;
    }
  }

  /** Commands are never dropped, reordered or taken back; replies once returned stay. */
  lemma {:induction false} HistoryGrows<S>(step: Backend<S>, a: Adapter<S>, steps: seq<Step<S>>, more: seq<Step<S>>)
    requires Legal(step, a, steps + more)
    ensures var (before, after) := (Run(step, a, steps), Run(step, a, steps + more));
            && before.sent <= after.sent && before.executed <= after.executed
            && (forall i :: i in before.returned ==> i in after.returned && after.returned[i] == before.returned[i])
    decreases |more|
  {
    if more != [] {
      assert (steps + more)[..|steps + more| - 1] == steps + more[..|more| - 1];
      HistoryGrows(step, a, steps, more[..|more| - 1]);
    } else {
      assert steps + more == steps;
    }
  }

  /** The order of the direct run respects real time: a call that has returned comes before everything sent later. */
  lemma ReturnedComesFirst<S>(step: Backend<S>, s: S, steps: seq<Step<S>>, cmd: Command, more: seq<Step<S>>, call: nat)
    requires Legal(step, Start(s), steps + [Send(cmd)] + more)
    requires var a := Run(step, Start(s), steps); a.alive && call in a.returned
    ensures var (a, after) := (Run(step, Start(s), steps), Run(step, Start(s), steps + [Send(cmd)] + more));
            call < |a.sent| < |after.sent| && after.sent[|a.sent|] == cmd
  {
    LegalBefore(step, Start(s), steps + [Send(cmd)], more);
    LegalBefore(step, Start(s), steps, [Send(cmd)]);
    RunFollowsTheBackend(step, s, steps);
    HistoryGrows(step, Start(s), steps + [Send(cmd)], more);
    assert (steps + [Send(cmd)])[..|steps|] == steps;
  }

  /** The shortest run: one call, executed and answered. */
  lemma ACallIsAnswered<S>(step: Backend<S>, s: S, cmd: Command)
    requires !cmd.DestroySession?
    ensures var steps := [Send(cmd), Work, Return(0)];
            && Legal(step, Start(s), steps)
            && var a := Run(step, Start(s), steps);
               0 in a.returned && a.returned[0] == step(s, cmd).1 && a.inner == step(s, cmd).0
  {
    var (sent, worked) := ([Send(cmd)], [Send(cmd), Work]);
    OneMoreStep(step, Start(s), [], Send(cmd));
    OneMoreStep(step, Start(s), sent, Work);
    OneMoreStep(step, Start(s), worked, Return(0));
    assert [] + sent == sent && sent + [Work] == worked && worked + [Return(0)] == [Send(cmd), Work, Return(0)];
  }

  /** A backend that panics in a call: the caller gets the default, the state is what the panic left. */
  lemma APanicIsSurvived<S>(step: Backend<S>, s: S, left: S, cmd: Command)
    requires !cmd.DestroySession?
    ensures var steps := [Send(cmd), Crash(left), Return(0)];
            && Legal(step, Start(s), steps)
            && var a := Run(step, Start(s), steps);
               && 0 in a.returned && a.returned[0] == Default(cmd) && a.inner == left && !a.alive
               && forall later :: Apply(step, a, Send(later)) == a
  {
    var (sent, crashed) := ([Send(cmd)], [Send(cmd), Crash(left)]);
    OneMoreStep(step, Start(s), [], Send(cmd));
    OneMoreStep(step, Start(s), sent, Crash(left));
    OneMoreStep(step, Start(s), crashed, Return(0));
    assert [] + sent == sent && sent + [Crash(left)] == crashed;
    assert crashed + [Return(0)] == [Send(cmd), Crash(left), Return(0)];
  }

  lemma OneMoreStep<S>(step: Backend<S>, a: Adapter<S>, steps: seq<Step<S>>, t: Step<S>)
    requires Legal(step, a, steps) && Enabled(Run(step, a, steps), t)
    ensures Legal(step, a, steps + [t]) && Run(step, a, steps + [t]) == Apply(step, Run(step, a, steps), t)
  {
    assert (steps + [t])[..|steps|] == steps;
  }

  /** The worker can take a command, or die of it, exactly while it lives and there is one. */
  lemma WhenTheWorkerMoves<S>(a: Adapter<S>, left: S)
    ensures Enabled(a, Work) <==> a.alive && a.executed < |a.sent|
    ensures Enabled(a, Crash(left)) <==> a.alive && a.executed < |a.sent|
  {
  }

  // ----- the objects -----

  /** A live adapter: the forwarding methods send a command and wait while the worker loop runs. */
  class ChannelRimeBackend<S(==)> {
    const step: Backend<S>
    var queue: seq<Command>
    var executed: nat
    var runtimeBackend: S
    var slots: map<nat, Reply>
    var abandoned: set<nat>
    ghost var sent: seq<Command>
    ghost const initial: S

    /** Everything sent so far has gone through the direct run, but for what is still queued. */
    ghost predicate Valid()
      reads this
    {
      && executed + |queue| == |sent| && sent[executed..] == queue
      && runtimeBackend == Direct(step, initial, sent[..executed]).0
      && (forall i :: i in slots ==> i < executed && slots[i] == Direct(step, initial, sent).1[i])
      && (forall i :: i in abandoned ==> i < |sent|)
    }

    constructor (step: Backend<S>, inner: S)
      ensures Valid() && sent == [] && this.step == step && initial == inner && queue == [] && runtimeBackend == inner
    {
      this.step, runtimeBackend, initial := step, inner, inner;
      queue, executed, slots, abandoned, sent := [], 0, map[], {}, [];
    }

    /** The place in the sending order names the call's one-shot channel. */
    method SendCommand(cmd: Command) returns (call: nat)
      requires Valid()
      modifies this`queue, this`sent
      ensures Valid() && sent == old(sent) + [cmd] && call == |old(sent)| && call !in slots && call !in abandoned
      ensures queue == old(queue) + [cmd]
    {
      call := executed + |queue|;
      queue := queue + [cmd];
      DirectOneMore(step, initial, sent, cmd);
      sent := sent + [cmd];
      assert sent[..executed] == old(sent)[..executed];
    }

    /** One round of the worker loop. */
    method WorkOne()
      requires Valid() && queue != []
      modifies this`queue, this`executed, this`runtimeBackend, this`slots
      ensures Valid() && executed == old(executed) + 1 && queue == old(queue)[1..]
      ensures slots.Keys
              == old(slots).Keys
                 + (if old(executed) in abandoned || old(queue)[0].DestroySession? then {} else {old(executed)})
    {
      var cmd := queue[0];
      assert sent[executed] == cmd && sent[..executed + 1] == sent[..executed] + [cmd];
      DirectOneMore(step, initial, sent[..executed], cmd);
      RepliesAreStable(step, initial, sent, executed + 1);
      var (inner, reply) := step(runtimeBackend, cmd);
      assert reply == Direct(step, initial, sent[..executed + 1]).1[executed];
      assert reply == Direct(step, initial, sent).1[executed];
      runtimeBackend := inner;
      if !cmd.DestroySession? && executed !in abandoned {
        slots := slots[executed := reply];
      }
      queue := queue[1..];
      executed := executed + 1;
    }

    /** The caller gives up: the worker's reply will find no receiver, the command is executed all the same. */
    method Drop(call: nat)
      requires Valid() && call < |sent|
      modifies this`abandoned, this`slots
      ensures Valid() && call !in slots && abandoned == old(abandoned) + {call}
    {
      abandoned := abandoned + {call};
      slots := slots - {call};
    }

    method Await(call: nat) returns (reply: Reply)
      requires Valid() && call < |sent| && call !in abandoned && !sent[call].DestroySession?
      requires call < executed ==> call in slots
      modifies this`queue, this`executed, this`runtimeBackend, this`slots
      ensures Valid() && executed == (if old(executed) > call then old(executed) else call + 1)
      ensures reply == Direct(step, initial, sent).1[call]
    {
      while executed <= call
        invariant Valid() && sent == old(sent) && abandoned == old(abandoned)
        invariant call < executed ==> call in slots
        invariant executed == old(executed) || executed <= call + 1
        invariant old(executed) <= executed
        decreases call + 1 - executed
      {
        assert queue[0] == sent[executed];
        WorkOne();
      }
      reply := slots[call];
    }

    /** A call on the adapter: everything still queued is executed first, then the command; its reply comes back. */
    method Call(cmd: Command) returns (reply: Reply)
      requires Valid() && !cmd.DestroySession?
      modifies this
      ensures Valid() && sent == old(sent) + [cmd] && queue == []
      ensures var (before, _) := Direct(step, initial, old(sent)); (runtimeBackend, reply) == step(before, cmd)
    {
      var call := SendCommand(cmd);
      reply := Await(call);
      DirectOneMore(step, initial, old(sent), cmd);
      assert sent[..executed] == sent;
    }

    /** What a method returned and left behind, against the command applied to the backend directly. */
    ghost function Expected(before: seq<Command>, cmd: Command): (S, Reply)
      reads this
    {
      step(Direct(step, initial, before).0, cmd)
    }

    method Open() returns (session: Option<nat>)
      requires Valid()
      modifies this
      ensures Valid() && sent == old(sent) + [OpenSession] && queue == []
      ensures var (after, reply) := Expected(old(sent), OpenSession);
              runtimeBackend == after && session == SessionOf(reply)
    {
      var reply := Call(OpenSession);
      session := SessionOf(reply);
    }

    /** No reply to wait for: the command only joins the queue. */
    method Destroy(id: nat)
      requires Valid()
      modifies this
      ensures Valid() && sent == old(sent) + [DestroySession(id)] && runtimeBackend == old(runtimeBackend)
      ensures queue == old(queue) + [DestroySession(id)]
    {
      var _ := SendCommand(DestroySession(id));
    }

    method Process(id: nat, key: KeyEvent) returns (accepted: bool)
      requires Valid()
      modifies this
      ensures Valid() && sent == old(sent) + [ProcessKey(id, key)] && queue == []
      ensures var (after, reply) := Expected(old(sent), ProcessKey(id, key));
              runtimeBackend == after && accepted == Flag(reply)
    {
      var reply := Call(ProcessKey(id, key));
      accepted := Flag(reply);
    }

    method ReadContext(id: nat) returns (context: Context)
      requires Valid()
      modifies this
      ensures Valid() && sent == old(sent) + [GetContext(id)] && queue == []
      ensures var (after, reply) := Expected(old(sent), GetContext(id));
              runtimeBackend == after && context == ContextOf(reply)
    {
      var reply := Call(GetContext(id));
      context := ContextOf(reply);
    }

    method ReadCommit(id: nat) returns (text: Option<string>)
      requires Valid()
      modifies this
      ensures Valid() && sent == old(sent) + [GetCommit(id)] && queue == []
      ensures var (after, reply) := Expected(old(sent), GetCommit(id));
              runtimeBackend == after && text == TextOf(reply)
    {
      var reply := Call(GetCommit(id));
      text := TextOf(reply);
    }

    method Select(id: nat, index: nat) returns (selected: bool)
      requires Valid()
      modifies this
      ensures Valid() && sent == old(sent) + [SelectCandidate(id, index)] && queue == []
      ensures var (after, reply) := Expected(old(sent), SelectCandidate(id, index));
              runtimeBackend == after && selected == Flag(reply)
    {
      var reply := Call(SelectCandidate(id, index));
      selected := Flag(reply);
    }
  }
}
