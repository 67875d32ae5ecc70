/** What holds over whole runs of the gateway, and which runs break what one might expect. */
module GatewayRuns {
  import opened WorkerIds
  import opened WorkerPools
  import opened Gateway

  // ----- worker ids and orphans -----

  /** The workers that acquires of this run obtained and then failed to bind. */
  ghost function LostByAcquire(cfg: GatewayConfig, s: State, steps: seq<Step>): set<string>
    requires Legal(cfg, s, steps)
    decreases |steps|
  {
    if steps == [] then {}
    else
      (match steps[0]
       case OpenAcquire(sid, want, spawnable, resetOk) =>
         var got := Obtain(s.pool, want, spawnable).1;
         if got.Some? && Acquire(s.pool, sid, want, spawnable, resetOk).1.None? then {got.value} else {}
       case _ => {})
      + LostByAcquire(cfg, Apply(cfg, s, steps[0]), steps[1..])
  }

  lemma AcquirePool(cfg: GatewayConfig, s: State, step: Step)
    requires Inv(cfg, s) && Enabled(cfg, s, step) && step.OpenAcquire?
    ensures OnlyNewIds(s.pool, Apply(cfg, s, step).pool)
    ensures Orphans(Apply(cfg, s, step).pool) == Orphans(s.pool) + LostByAcquire(cfg, s, [step])
  {
    AcquireKeeps(s.pool, step.sid, step.wantPrewarmed, step.spawnable, step.resetOk);
  }

  lemma StepPool(cfg: GatewayConfig, s: State, step: Step)
    requires Inv(cfg, s) && Enabled(cfg, s, step)
    ensures OnlyNewIds(s.pool, Apply(cfg, s, step).pool)
    ensures Orphans(Apply(cfg, s, step).pool) == Orphans(s.pool) + LostByAcquire(cfg, s, [step])
  {
    match step
    case OpenAcquire(_, _, _, _) => AcquirePool(cfg, s, step);
    case ReapRelease(spawnable) => ReapKeeps(s.pool, cfg.pool, s.reaper.ids, spawnable);
    case _ =>
  }

  /** Orphans are exactly the workers lost by failing acquires; no other step makes or removes one. */
  lemma {:induction false} OrphansComeFromFailedAcquires(cfg: GatewayConfig, s: State, steps: seq<Step>)
    requires Inv(cfg, s) && Legal(cfg, s, steps)
    ensures Orphans(Run(cfg, s, steps).pool) == Orphans(s.pool) + LostByAcquire(cfg, s, steps)
    decreases |steps|
  {
    if steps != [] {
      StepKeeps(cfg, s, steps[0]);
      StepPool(cfg, s, steps[0]);
      OrphansComeFromFailedAcquires(cfg, Apply(cfg, s, steps[0]), steps[1..]);
    }
  }

  /** An id the counter has passed and that is not registered never comes back. */
  lemma {:induction false} WorkerIdsAreNeverReused(cfg: GatewayConfig, s: State, steps: seq<Step>, id: string)
    requires Inv(cfg, s) && Legal(cfg, s, steps)
    requires IdNumber(id) <= s.pool.nextId && id !in s.pool.workers
    ensures id !in Run(cfg, s, steps).pool.workers
    decreases |steps|
  {
    if steps != [] {
      StepKeeps(cfg, s, steps[0]);
      StepPool(cfg, s, steps[0]);
      WorkerIdsAreNeverReused(cfg, Apply(cfg, s, steps[0]), steps[1..], id);
    }
  }

  // ----- captured worker ids -----

  /** What the pool section of a handler can reach while its session lives: its own worker and no other. */
  lemma CapturedWorkerIsOwn(cfg: GatewayConfig, init: State, steps: seq<Step>, h: nat)
    requires Init(cfg, init) && Legal(cfg, init, steps)
    requires h in Run(cfg, init, steps).handlers
    ensures var s := Run(cfg, init, steps);
            var c := s.handlers[h];
            c.sid in s.sessions ==>
              && c.worker in s.pool.workers
              && c.sid in s.pool.busy && s.pool.busy[c.sid] == c.worker
              && forall other :: other in s.pool.busy && other != c.sid ==> s.pool.busy[other] != c.worker
  {
    InitEstablishes(cfg, init);
    RunKeeps(cfg, init, steps);
  }

  lemma {:induction false} PrefixLegal(cfg: GatewayConfig, s: State, steps: seq<Step>, k: nat)
    requires Legal(cfg, s, steps) && k <= |steps|
    ensures Legal(cfg, s, steps[..k])
    decreases k
  {
    if k > 0 {
      PrefixLegal(cfg, Apply(cfg, s, steps[0]), steps[1..], k - 1);
      assert steps[..k][1..] == steps[1..][..k - 1];
    }
  }

  /** Step `k` is the reaper removing `sid`. */
  ghost predicate ReapedAt(cfg: GatewayConfig, s: State, steps: seq<Step>, k: nat, sid: string)
    requires Legal(cfg, s, steps)
  {
    && k < |steps| && steps[k].ReapRemove?
    && Legal(cfg, s, steps[..k])
    && var t := Run(cfg, s, steps[..k]);
       t.reaper.Scanned? && sid in t.reaper.ids && sid in t.sessions
  }

  /** The part of the invariant that fixes a session's binding. */
  ghost predicate TablesApart(s: State) {
    s.sessions.Keys !! s.opening.Keys && s.sessions.Keys + s.opening.Keys <= s.issued
  }

  lemma StepSession(cfg: GatewayConfig, s: State, step: Step, sid: string)
    requires TablesApart(s) && Enabled(cfg, s, step) && sid in s.sessions
    ensures var t := Apply(cfg, s, step);
            && TablesApart(t)
            && if sid in t.sessions then t.sessions[sid].worker == s.sessions[sid].worker
               else step.ReapRemove? && sid in s.reaper.ids
  {
    if step.OpenInsert? {
      assert step.sid in s.opening.Keys && step.sid !in s.sessions.Keys;
    }
  }

  lemma ReapedLater(cfg: GatewayConfig, s: State, steps: seq<Step>, k: nat, sid: string)
    requires steps != [] && Legal(cfg, s, steps)
    requires ReapedAt(cfg, Apply(cfg, s, steps[0]), steps[1..], k, sid)
    ensures ReapedAt(cfg, s, steps, k + 1, sid)
  {
    assert steps[..k + 1][1..] == steps[1..][..k];
  }

  /** A session leaves the table only through the reaper, and its worker binding never changes before that. */
  lemma {:induction false} SessionEndsByReaping(cfg: GatewayConfig, s: State, steps: seq<Step>, sid: string)
    requires TablesApart(s) && Legal(cfg, s, steps) && sid in s.sessions
    ensures var t := Run(cfg, s, steps);
            || (sid in t.sessions && t.sessions[sid].worker == s.sessions[sid].worker)
            || exists k: nat :: ReapedAt(cfg, s, steps, k, sid)
    decreases |steps|
  {
    if steps != [] {
      var next := Apply(cfg, s, steps[0]);
      StepSession(cfg, s, steps[0], sid);
      if sid in next.sessions {
        SessionEndsByReaping(cfg, next, steps[1..], sid);
        var t := Run(cfg, s, steps);
        if !(sid in t.sessions && t.sessions[sid].worker == s.sessions[sid].worker) {
          var k: nat :| ReapedAt(cfg, next, steps[1..], k, sid);
          ReapedLater(cfg, s, steps, k, sid);
        }
      } else {
        assert steps[..0] == [];
        assert ReapedAt(cfg, s, steps, 0, sid);
      }
    }
  }

  /** A captured worker id can belong to a different session later only if the captured one was reaped in between. */
  lemma ForeignWorkerOnlyAfterReaping(cfg: GatewayConfig, s: State, steps: seq<Step>, sid: string, other: string)
    requires Inv(cfg, s) && Legal(cfg, s, steps)
    requires sid in s.sessions && other != sid
    requires var t := Run(cfg, s, steps); other in t.pool.busy && t.pool.busy[other] == s.sessions[sid].worker
    ensures exists k: nat :: ReapedAt(cfg, s, steps, k, sid)
  {
    SessionEndsByReaping(cfg, s, steps, sid);
    RunKeeps(cfg, s, steps);
  }

  /**
   * A session that left the table never comes back, so every later request for it is answered "not found"
   * and changes nothing. (The C++ client keeps its first session id for good, `GrpcClients.Ensure`.)
   */
  lemma {:induction false} ReapedSessionStaysGone(cfg: GatewayConfig, s: State, steps: seq<Step>, sid: string)
    requires TablesApart(s) && Legal(cfg, s, steps)
    requires sid in s.issued && sid !in s.sessions && sid !in s.opening
    ensures var t := Run(cfg, s, steps);
            && sid !in t.sessions
            && forall h, n, op :: Enabled(cfg, t, KeyCheck(h, sid, n)) && Enabled(cfg, t, Touch(h, sid, n, op)) ==>
                 Apply(cfg, t, KeyCheck(h, sid, n)) == t && Apply(cfg, t, Touch(h, sid, n, op)) == t
    decreases |steps|
  {
    if steps != [] {
      ReapedSessionStaysGone(cfg, Apply(cfg, s, steps[0]), steps[1..], sid);
    }
  }

  /** The removal section takes what the scan listed: idle beyond the limit at the scan, or touched since. */
  lemma ReapedWasIdleOrTouchedSince(cfg: GatewayConfig, init: State, steps: seq<Step>, sid: string)
    requires Init(cfg, init) && Legal(cfg, init, steps)
    requires Enabled(cfg, Run(cfg, init, steps), ReapRemove) && sid in Run(cfg, init, steps).reaper.ids
    ensures var s := Run(cfg, init, steps);
            && sid in s.sessions && sid !in Apply(cfg, s, ReapRemove).sessions
            && (Expired(s.sessions[sid], s.reaper.at, cfg.ttl) <==> s.sessions[sid].lastActive < s.reaper.at)
  {
    InitEstablishes(cfg, init);
    RunKeeps(cfg, init, steps);
  }

  // ----- one client's sequence numbers -----

  ghost predicate Starts(step: Step, sid: string) {
    (step.KeyCheck? && step.sid == sid) || (step.Touch? && step.sid == sid)
  }

  /** Reset requests carry no sequence number. */
  ghost predicate Numbered(step: Step, sid: string) {
    Starts(step, sid) && !(step.Touch? && step.op == Reset)
  }

  /** A key request between its sequence check and its worker. */
  predicate IsKey(c: Handler) {
    c.KeyPassed? || c.op.Key?
  }

  function KeyNumber(c: Handler): nat
    requires IsKey(c)
  {
    if c.KeyPassed? then c.seqNo else c.op.seqNo
  }

  ghost predicate KeyInFlight(s: State, h: nat, sid: string) {
    h in s.handlers && s.handlers[h].sid == sid && IsKey(s.handlers[h])
  }

  ghost predicate NoKeyInFlight(s: State, sid: string) {
    forall h :: !KeyInFlight(s, h, sid)
  }

  /** A key of `sid` starts only while no other key of `sid` is in flight; anything else may overlap. */
  ghost predicate KeyAlone(s: State, step: Step, sid: string) {
    step.KeyCheck? && step.sid == sid ==> NoKeyInFlight(s, sid)
  }

  /** The requests of `sid` carry growing numbers; lost ones leave gaps. `top` is the largest delivered so far. */
  ghost predicate GrowingRun(cfg: GatewayConfig, s: State, steps: seq<Step>, sid: string, top: nat)
    decreases |steps|
  {
    steps != [] ==>
    && Enabled(cfg, s, steps[0])
    && (Numbered(steps[0], sid) ==> steps[0].seqNo > top)
    && GrowingRun(cfg, Apply(cfg, s, steps[0]), steps[1..], sid, NextTop(steps[0], sid, top))
  }

  /** A run as the client of `sid` sees to it: growing numbers, and the host handles one of its keys at a time. */
  ghost predicate ClientRun(cfg: GatewayConfig, s: State, steps: seq<Step>, sid: string, top: nat)
    decreases |steps|
  {
    steps != [] ==>
    && Enabled(cfg, s, steps[0])
    && KeyAlone(s, steps[0], sid)
    && (Numbered(steps[0], sid) ==> steps[0].seqNo > top)
    && ClientRun(cfg, Apply(cfg, s, steps[0]), steps[1..], sid, NextTop(steps[0], sid, top))
  }

  ghost function NextTop(step: Step, sid: string, top: nat): nat {
    if Numbered(step, sid) then step.seqNo else top
  }

  ghost function TopOf(steps: seq<Step>, sid: string, top: nat): nat
    decreases |steps|
  {
    if steps == [] then top else TopOf(steps[1..], sid, NextTop(steps[0], sid, top))
  }

  ghost predicate AppliedBelow(s: State, sid: string, bound: nat) {
    forall i :: 0 <= i < |s.applied| && s.applied[i].0 == sid ==> s.applied[i].1 < bound
  }

  ghost predicate AppliedIncreasing(s: State, sid: string) {
    forall i, j :: 0 <= i < j < |s.applied| && s.applied[i].0 == sid && s.applied[j].0 == sid
      ==> s.applied[i].1 < s.applied[j].1
  }

  ghost predicate NoRejection(s: State, sid: string) {
    forall h :: h in s.handlers && s.handlers[h].sid == sid && s.handlers[h].Using? ==> s.handlers[h].op != Snapshot
  }

  /** `last_seq` and the keys in flight never pass the client, and nothing of the client's is being rejected. */
  ghost predicate BelowTop(s: State, sid: string, top: nat) {
    && (sid in s.sessions ==> s.sessions[sid].lastSeq <= top)
    && NoRejection(s, sid)
    && forall h :: KeyInFlight(s, h, sid) ==> KeyNumber(s.handlers[h]) <= top
  }

  lemma BelowTopStep(cfg: GatewayConfig, s: State, step: Step, sid: string, top: nat)
    requires Enabled(cfg, s, step) && BelowTop(s, sid, top)
    requires Numbered(step, sid) ==> step.seqNo > top
    ensures BelowTop(Apply(cfg, s, step), sid, NextTop(step, sid, top))
  {
    var t := Apply(cfg, s, step);
    if step.KeyStore? {
      assert s.handlers[step.h].sid == sid ==> KeyInFlight(s, step.h, sid);
    }
    forall h | KeyInFlight(t, h, sid)
      ensures KeyNumber(t.handlers[h]) <= NextTop(step, sid, top)
    {
      assert (step.KeyCheck? && step.h == h) || KeyInFlight(s, h, sid);
    }
  }

  /**
   * For a client that numbers every request, whatever is lost and however everything interleaves, overlapping keys of
   * its own included: `last_seq` stays at or below the client's counter and none of its keys is rejected.
   */
  lemma {:induction false} GrowingNumbersAreNeverRejected(
      cfg: GatewayConfig, s: State, steps: seq<Step>, sid: string, top: nat)
    requires GrowingRun(cfg, s, steps, sid, top) && BelowTop(s, sid, top)
    ensures Legal(cfg, s, steps)
    ensures var t := Run(cfg, s, steps);
            && (sid in t.sessions ==> t.sessions[sid].lastSeq <= TopOf(steps, sid, top))
            && NoRejection(t, sid)
    decreases |steps|
  {
    if steps != [] {
      BelowTopStep(cfg, s, steps[0], sid, top);
      GrowingNumbersAreNeverRejected(
        cfg, Apply(cfg, s, steps[0]), steps[1..], sid, NextTop(steps[0], sid, top));
    }
  }

  /** Nothing of the client's is being rejected, and a key in flight is newer than every key applied. */
  ghost predicate HandlerInv(s: State, c: Handler, sid: string, top: nat) {
    && (c.Using? ==> c.op != Snapshot)
    && (IsKey(c) ==> KeyNumber(c) <= top && AppliedBelow(s, sid, KeyNumber(c)))
  }

  /** `last_seq` never passes the client, at most one key is in flight, and the key log grows. */
  ghost predicate ClientInv(s: State, sid: string, top: nat) {
    && (sid in s.sessions ==> s.sessions[sid].lastSeq <= top)
    && (forall a, b :: KeyInFlight(s, a, sid) && KeyInFlight(s, b, sid) ==> a == b)
    && AppliedBelow(s, sid, top + 1) && AppliedIncreasing(s, sid)
    && forall h :: h in s.handlers && s.handlers[h].sid == sid ==> HandlerInv(s, s.handlers[h], sid, top)
  }

  lemma ClientCheckStep(cfg: GatewayConfig, s: State, step: Step, sid: string, top: nat)
    requires Enabled(cfg, s, step) && ClientInv(s, sid, top) && step.KeyCheck? && KeyAlone(s, step, sid)
    requires Numbered(step, sid) ==> step.seqNo > top
    ensures ClientInv(Apply(cfg, s, step), sid, NextTop(step, sid, top))
  {
    var t := Apply(cfg, s, step);
    assert forall h :: h in t.handlers && h != step.h ==> h in s.handlers && t.handlers[h] == s.handlers[h];
    assert forall h :: h != step.h ==> (KeyInFlight(t, h, sid) <==> KeyInFlight(s, h, sid));
  }

  lemma ClientTouchStep(cfg: GatewayConfig, s: State, step: Step, sid: string, top: nat)
    requires Enabled(cfg, s, step) && ClientInv(s, sid, top) && step.Touch?
    requires Numbered(step, sid) ==> step.seqNo > top
    ensures ClientInv(Apply(cfg, s, step), sid, NextTop(step, sid, top))
  {
    var t := Apply(cfg, s, step);
    assert forall h :: h in t.handlers && h != step.h ==> h in s.handlers && t.handlers[h] == s.handlers[h];
    assert forall h :: KeyInFlight(t, h, sid) ==> KeyInFlight(s, h, sid);
  }

  lemma ClientPoolStep(cfg: GatewayConfig, s: State, step: Step, sid: string, top: nat)
    requires Enabled(cfg, s, step) && ClientInv(s, sid, top) && step.UsePool?
    ensures ClientInv(Apply(cfg, s, step), sid, top)
  {
    var t := Apply(cfg, s, step);
    assert forall h :: h in t.handlers ==> h in s.handlers && t.handlers[h] == s.handlers[h];
    assert forall h :: KeyInFlight(t, h, sid) ==> h != step.h && KeyInFlight(s, h, sid);
    var c := s.handlers[step.h];
    if c.sid == sid && c.op.Key? {
      assert KeyInFlight(s, step.h, sid) && HandlerInv(s, c, sid, top);
      assert KeyNumber(c) == c.op.seqNo;
      assert NoKeyInFlight(t, sid);
    }
    assert AppliedIncreasing(t, sid);
    assert AppliedBelow(t, sid, top + 1);
    forall h | h in t.handlers && t.handlers[h].sid == sid
      ensures HandlerInv(t, t.handlers[h], sid, top)
    {
      assert HandlerInv(s, s.handlers[h], sid, top);
      assert IsKey(t.handlers[h]) ==> KeyInFlight(t, h, sid);
    }
  }

  lemma ClientStoreStep(cfg: GatewayConfig, s: State, step: Step, sid: string, top: nat)
    requires Enabled(cfg, s, step) && ClientInv(s, sid, top) && step.KeyStore?
    ensures ClientInv(Apply(cfg, s, step), sid, top)
  {
    var t := Apply(cfg, s, step);
    assert IsKey(s.handlers[step.h]);
    assert forall h :: h in t.handlers && h != step.h ==> h in s.handlers && t.handlers[h] == s.handlers[h];
    assert forall h :: KeyInFlight(t, h, sid) ==> KeyInFlight(s, h, sid);
    assert t.applied == s.applied;
  }

  ghost predicate LeavesRequests(step: Step) {
    !step.KeyCheck? && !step.Touch? && !step.UsePool? && !step.KeyStore?
  }

  /** A step that neither starts nor advances a request: counters and log stay, handlers may go. */
  lemma ClientUntouched(s: State, t: State, sid: string, top: nat)
    requires ClientInv(s, sid, top) && t.applied == s.applied
    requires forall h :: h in t.handlers ==> h in s.handlers && t.handlers[h] == s.handlers[h]
    requires sid in t.sessions ==>
               t.sessions[sid].lastSeq == 0 || (sid in s.sessions && t.sessions[sid] == s.sessions[sid])
    ensures ClientInv(t, sid, top)
  {
    assert forall h :: KeyInFlight(t, h, sid) ==> KeyInFlight(s, h, sid);
  }

  lemma ClientOtherStep(cfg: GatewayConfig, s: State, step: Step, sid: string, top: nat)
    requires Enabled(cfg, s, step) && ClientInv(s, sid, top) && LeavesRequests(step)
    ensures ClientInv(Apply(cfg, s, step), sid, top)
  {
    ClientUntouched(s, Apply(cfg, s, step), sid, top);
  }

  lemma ClientStep(cfg: GatewayConfig, s: State, step: Step, sid: string, top: nat)
    requires Enabled(cfg, s, step) && ClientInv(s, sid, top) && KeyAlone(s, step, sid)
    requires Numbered(step, sid) ==> step.seqNo > top
    ensures ClientInv(Apply(cfg, s, step), sid, NextTop(step, sid, top))
  {
    match step
    case KeyCheck(_, _, _) => ClientCheckStep(cfg, s, step, sid, top);
    case Touch(_, _, _, _) => ClientTouchStep(cfg, s, step, sid, top);
    case UsePool(_) => ClientPoolStep(cfg, s, step, sid, top);
    case KeyStore(_) => ClientStoreStep(cfg, s, step, sid, top);
    case _ => ClientOtherStep(cfg, s, step, sid, top);
  }

  /**
   * If moreover its keys do not overlap with each other, then, however its queries, commits and resets, the other
   * sessions and the reaper interleave, the keys applied carry strictly increasing numbers.
   */
  lemma {:induction false} DisciplinedKeysStayInOrder(
      cfg: GatewayConfig, s: State, steps: seq<Step>, sid: string, top: nat)
    requires ClientRun(cfg, s, steps, sid, top) && ClientInv(s, sid, top)
    ensures Legal(cfg, s, steps)
    ensures var t := Run(cfg, s, steps);
            && ClientInv(t, sid, TopOf(steps, sid, top))
            && (sid in t.sessions ==> t.sessions[sid].lastSeq <= TopOf(steps, sid, top))
            && NoRejection(t, sid)
            && AppliedIncreasing(t, sid)
    decreases |steps|
  {
    if steps != [] {
      ClientStep(cfg, s, steps[0], sid, top);
      DisciplinedKeysStayInOrder(cfg, Apply(cfg, s, steps[0]), steps[1..], sid, NextTop(steps[0], sid, top));
    }
  }

  /** The empty gateway satisfies the client invariant for every session id to come. */
  lemma ClientInvInitially(cfg: GatewayConfig, s: State, sid: string)
    requires Init(cfg, s)
    ensures ClientInv(s, sid, 0)
  {
  }

  // ----- the limits of these guarantees -----

  lemma {:induction false} RunAppend(cfg: GatewayConfig, s: State, steps: seq<Step>, more: seq<Step>)
    requires Legal(cfg, s, steps) && Legal(cfg, Run(cfg, s, steps), more)
    ensures Legal(cfg, s, steps + more)
    ensures Run(cfg, s, steps + more) == Run(cfg, Run(cfg, s, steps), more)
    decreases |steps|
  {
    var all := steps + more;
    if steps == [] {
      assert all == more;
    } else {
      assert all[1..] == steps[1..] + more;
      RunAppend(cfg, Apply(cfg, s, steps[0]), steps[1..], more);
    }
  }

  lemma RunOneMore(cfg: GatewayConfig, s: State, steps: seq<Step>, step: Step)
    requires Legal(cfg, s, steps) && Enabled(cfg, Run(cfg, s, steps), step)
    ensures Legal(cfg, s, steps + [step])
    ensures Run(cfg, s, steps + [step]) == Apply(cfg, Run(cfg, s, steps), step)
  {
    var t := Run(cfg, s, steps);
    assert [step][1..] == [];
    assert Legal(cfg, Apply(cfg, t, step), []);
    RunAppend(cfg, s, steps, [step]);
  }

  /** A key in flight is stored if it was not yet, and then applied; its handler is gone. */
  lemma KeyArrives(cfg: GatewayConfig, s: State, sid: string, h: nat) returns (steps: seq<Step>)
    requires sid in s.sessions && KeyInFlight(s, h, sid) && s.handlers[h].worker in s.pool.workers
    ensures Legal(cfg, s, steps) && StartsNothing(steps, sid)
    ensures var (c, n) := (s.handlers[h], KeyNumber(s.handlers[h]));
            Run(cfg, s, steps)
            == s.(handlers := s.handlers - {h}, applied := s.applied + [(sid, n)],
                  sessions := if c.KeyPassed? then Stored(s.sessions, sid, n, s.now) else s.sessions)
  {
    var c := s.handlers[h];
    steps := [];
    if c.KeyPassed? {
      RunOneMore(cfg, s, steps, KeyStore(h));
      steps := steps + [KeyStore(h)];
      assert s.handlers[h := Using(sid, c.worker, Key(c.seqNo))] - {h} == s.handlers - {h};
    }
    RunOneMore(cfg, s, steps, UsePool(h));
    steps := steps + [UsePool(h)];
  }

  /**
   * A newer key `m` whose check falls between the check of key `h` and its worker: both pass, although the numbers
   * arrive in growing order, and both can be applied in the wrong order. If `h` had not stored its number yet,
   * `last_seq` even goes backwards.
   */
  lemma OverlappingKeysRegress(cfg: GatewayConfig, s: State, sid: string, h: nat, g: nat, m: nat)
    returns (steps: seq<Step>)
    requires Inv(cfg, s) && sid in s.sessions && KeyInFlight(s, h, sid) && g !in s.handlers
    requires m > s.sessions[sid].lastSeq && m > KeyNumber(s.handlers[h])
    ensures Legal(cfg, Apply(cfg, s, KeyCheck(g, sid, m)), steps) && StartsNothing(steps, sid)
    ensures var (t, n) := (Run(cfg, Apply(cfg, s, KeyCheck(g, sid, m)), steps), KeyNumber(s.handlers[h]));
            && t.applied == s.applied + [(sid, m), (sid, n)] && !AppliedIncreasing(t, sid)
            && sid in t.sessions && t.sessions[sid].lastSeq == if s.handlers[h].KeyPassed? then n else m
  {
    var n := KeyNumber(s.handlers[h]);
    var start := Apply(cfg, s, KeyCheck(g, sid, m));
    assert s.handlers[h].worker == s.sessions[sid].worker && s.sessions[sid].worker in s.pool.workers;
    var newer := KeyArrives(cfg, start, sid, g);
    var middle := Run(cfg, start, newer);
    assert KeyInFlight(middle, h, sid);
    var older := KeyArrives(cfg, middle, sid, h);
    RunAppend(cfg, start, newer, older);
    steps := newer + older;
    var t := Run(cfg, start, steps);
    assert t.applied == s.applied + [(sid, m)] + [(sid, n)];
    assert t.applied[|s.applied|] == (sid, m) && t.applied[|s.applied| + 1] == (sid, n);
  }

  ghost predicate StartsNothing(steps: seq<Step>, sid: string) {
    forall i :: 0 <= i < |steps| ==> !Starts(steps[i], sid)
  }

  lemma {:induction false} QuietRunIsClientRun(cfg: GatewayConfig, s: State, steps: seq<Step>, sid: string, top: nat)
    requires Legal(cfg, s, steps) && StartsNothing(steps, sid)
    ensures ClientRun(cfg, s, steps, sid, top)
    decreases |steps|
  {
    if steps != [] {
      assert !Starts(steps[0], sid);
      assert forall i :: 0 <= i < |steps[1..]| ==> steps[1..][i] == steps[i + 1];
      QuietRunIsClientRun(cfg, Apply(cfg, s, steps[0]), steps[1..], sid, top);
    }
  }

  /** Whatever happens from `s` on without a further request of `sid`, its keys are applied in order. */
  ghost predicate KeysStayInOrder(cfg: GatewayConfig, s: State, sid: string) {
    forall steps :: Legal(cfg, s, steps) && StartsNothing(steps, sid) ==> AppliedIncreasing(Run(cfg, s, steps), sid)
  }

  /**
   * The exact condition, in every state that a client with growing numbers and no overlapping keys can reach: its
   * next key may be checked if and only if no key of its session is in flight.
   */
  lemma NextKeyIsSafeIff(cfg: GatewayConfig, s: State, sid: string, top: nat, g: nat, m: nat)
    requires Inv(cfg, s) && ClientInv(s, sid, top) && sid in s.sessions && g !in s.handlers && m > top
    ensures KeysStayInOrder(cfg, Apply(cfg, s, KeyCheck(g, sid, m)), sid) <==> NoKeyInFlight(s, sid)
  {
    var t := Apply(cfg, s, KeyCheck(g, sid, m));
    if NoKeyInFlight(s, sid) {
      ClientCheckStep(cfg, s, KeyCheck(g, sid, m), sid, top);
      forall steps | Legal(cfg, t, steps) && StartsNothing(steps, sid)
        ensures AppliedIncreasing(Run(cfg, t, steps), sid)
      {
        QuietRunIsClientRun(cfg, t, steps, sid, m);
        DisciplinedKeysStayInOrder(cfg, t, steps, sid, m);
      }
    } else {
      var h :| KeyInFlight(s, h, sid);
      var steps := OverlappingKeysRegress(cfg, s, sid, h, g, m);
      assert Legal(cfg, t, steps) && StartsNothing(steps, sid);
    }
  }

  /** A request handled after the scan does not save its session: the removal does not look at the clock again. */
  lemma TouchAfterScanIsLost(cfg: GatewayConfig, s: State, sid: string, h: nat, n: nat) returns (steps: seq<Step>)
    requires Inv(cfg, s) && s.reaper.Scanned? && sid in s.reaper.ids && h !in s.handlers
    ensures Legal(cfg, s, steps) && |steps| == 2
    ensures Legal(cfg, s, steps[..1])
    ensures sid in Run(cfg, s, steps[..1]).sessions && Run(cfg, s, steps[..1]).sessions[sid].lastActive == s.now
    ensures sid !in Run(cfg, s, steps).sessions
  {
    steps := [Touch(h, sid, n, Query)];
    RunOneMore(cfg, s, [], steps[0]);
    assert [] + steps == steps;
    RunOneMore(cfg, s, steps, ReapRemove);
    steps := steps + [ReapRemove];
    assert steps[..1] == [Touch(h, sid, n, Query)];
  }

  /** After a reap the captured id really can belong to someone else: the freed worker serves the next open. */
  lemma FreedWorkerServesNextOpen(cfg: GatewayConfig, s: State, h: nat, other: string) returns (steps: seq<Step>)
    requires Inv(cfg, s) && s.reaper == Sleeping && h in s.handlers && other !in s.issued
    requires var c := s.handlers[h]; c.sid in s.sessions && IsScan([c.sid], s.sessions, s.now, cfg.ttl)
    requires s.pool.idle == [] && cfg.pool.maxIdle > 0
    ensures Legal(cfg, s, steps)
    ensures var t := Run(cfg, s, steps);
            && h in t.handlers && t.handlers[h] == s.handlers[h]
            && other in t.pool.busy && t.pool.busy[other] == s.handlers[h].worker
  {
    var c := s.handlers[h];
    var s1 := s.(reaper := Scanned([c.sid], s.now));
    var s2 := s1.(sessions := s.sessions - Elements([c.sid]), reaper := Removed([c.sid]));
    steps := [];
    RunOneMore(cfg, s, steps, ReapScan(s.now, [c.sid]));
    steps := steps + [ReapScan(s.now, [c.sid])];
    RunOneMore(cfg, s, steps, ReapRemove);
    steps := steps + [ReapRemove];
    assert Run(cfg, s, steps) == s2;
    RunOneMore(cfg, s, steps, ReapRelease({}));
    steps := steps + [ReapRelease({})];
    RunKeeps(cfg, s, steps);
    var s3 := Run(cfg, s, steps);
    assert s3.pool.idle != [] && s3.pool.idle[0] == c.worker by {
      FreedWorkerIsQueued(cfg, s, c.sid, c.worker);
    }
    RunOneMore(cfg, s, steps, OpenAcquire(other, true, {}, true));
    steps := steps + [OpenAcquire(other, true, {}, true)];
  }

  lemma FreedWorkerIsQueued(cfg: GatewayConfig, s: State, sid: string, w: string)
    requires Inv(cfg, s) && sid in s.sessions && s.sessions[sid].worker == w
    requires s.pool.idle == [] && cfg.pool.maxIdle > 0
    ensures [w] <= Reap(s.pool, cfg.pool, [sid], {}).idle
  {
    ReleaseAllKeeps(s.pool, cfg.pool, [sid]);
    var q := ReleaseAll(s.pool, cfg.pool, [sid]);
    assert q == Release(s.pool, cfg.pool, sid) by {
      assert [sid][1..] == [];
      assert ReleaseAll(Release(s.pool, cfg.pool, sid), cfg.pool, []) == Release(s.pool, cfg.pool, sid);
    }
    assert q.idle == [w];
    TrimKeeps(q, cfg.pool);
    PrewarmKeeps(q, cfg.pool, {});
  }
}
