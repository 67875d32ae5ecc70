/** What the gateway's check, its clock and its reaper do, in plain numbers, and what that means over runs. */
module GatewayLaws {
  import opened Wrappers
  import opened WorkerPools
  import opened Gateway
  import opened GatewayRuns

  // ----- the sequence check -----

  /** A late or repeated key changes nothing but its own handler, and reaches the worker only for a snapshot. */
  lemma LateKeyIsRejected(cfg: GatewayConfig, s: State, h: nat, sid: string, n: nat)
    requires Enabled(cfg, s, KeyCheck(h, sid, n)) && sid in s.sessions && n <= s.sessions[sid].lastSeq
    ensures var t := Apply(cfg, s, KeyCheck(h, sid, n));
            && h in t.handlers && !IsKey(t.handlers[h]) && !Enabled(cfg, t, KeyStore(h))
            && t.sessions == s.sessions && t.applied == s.applied
            && Enabled(cfg, t, UsePool(h))
            && Apply(cfg, t, UsePool(h)) == s
  {
    var t := Apply(cfg, s, KeyCheck(h, sid, n));
    assert t.handlers - {h} == s.handlers;
  }

  /** A newer key is let through under its own number, to the session's own worker. */
  lemma NewKeyPasses(cfg: GatewayConfig, s: State, h: nat, sid: string, n: nat)
    requires Enabled(cfg, s, KeyCheck(h, sid, n)) && sid in s.sessions && n > s.sessions[sid].lastSeq
    ensures var t := Apply(cfg, s, KeyCheck(h, sid, n));
            && KeyInFlight(t, h, sid) && KeyNumber(t.handlers[h]) == n && Enabled(cfg, t, KeyStore(h))
            && t.handlers[h].worker == s.sessions[sid].worker
            && t.sessions == s.sessions && t.applied == s.applied
  {
  }

  /** Storing keeps the number, whatever is in the table; touching keeps the larger one. Both note the time. */
  lemma WhatIsStored(cfg: GatewayConfig, s: State, step: Step, sid: string)
    requires Enabled(cfg, s, step) && sid in s.sessions
    requires (step.KeyStore? && s.handlers[step.h].sid == sid) || (step.Touch? && step.sid == sid)
    ensures var (old', new') := (s.sessions[sid], Apply(cfg, s, step).sessions[sid]);
            && step.h in Apply(cfg, s, step).handlers
            && sid in Apply(cfg, s, step).sessions && new'.worker == old'.worker && new'.lastActive == s.now
            && (step.KeyStore? ==>
                  new'.lastSeq == s.handlers[step.h].seqNo
                  && Apply(cfg, s, step).handlers[step.h]
                     == Using(sid, s.handlers[step.h].worker, Key(s.handlers[step.h].seqNo)))
            && (step.Touch? ==> Apply(cfg, s, step).handlers[step.h] == Using(sid, old'.worker, step.op))
            && (step.Touch? && step.seqNo <= old'.lastSeq ==> new'.lastSeq == old'.lastSeq)
            && (step.Touch? && step.seqNo > old'.lastSeq ==> new'.lastSeq == step.seqNo)
  {
  }

  /** A session starts at number 0 and with the time of its insertion. */
  lemma WhatIsInserted(cfg: GatewayConfig, s: State, sid: string)
    requires Enabled(cfg, s, OpenInsert(sid))
    ensures var t := Apply(cfg, s, OpenInsert(sid));
            && sid in t.sessions && t.sessions[sid] == Session(s.opening[sid], 0, s.now) && sid !in t.opening
  {
  }

  /** Only a key whose worker is registered enters the log, and it does so under its own number. */
  lemma WhatIsApplied(cfg: GatewayConfig, s: State, h: nat)
    requires Enabled(cfg, s, UsePool(h))
    ensures var (c, t) := (s.handlers[h], Apply(cfg, s, UsePool(h)));
            t.applied
            == if IsKey(c) && c.worker in s.pool.workers then s.applied + [(c.sid, KeyNumber(c))] else s.applied
  {
  }

  /** Step `k` checks key `n` of `sid` while a smaller number is stored. */
  ghost predicate FreshCheckAt(cfg: GatewayConfig, init: State, steps: seq<Step>, k: nat, sid: string, n: nat)
    requires Legal(cfg, init, steps)
  {
    && k < |steps| && steps[k].KeyCheck? && steps[k].sid == sid && steps[k].seqNo == n
    && Legal(cfg, init, steps[..k])
    && var s := Run(cfg, init, steps[..k]); sid in s.sessions && s.sessions[sid].lastSeq < n
  }

  ghost predicate CheckedFresh(cfg: GatewayConfig, init: State, steps: seq<Step>, sid: string, n: nat)
    requires Legal(cfg, init, steps)
  {
    exists k: nat :: FreshCheckAt(cfg, init, steps, k, sid, n)
  }

  lemma StillChecked(cfg: GatewayConfig, init: State, steps: seq<Step>, step: Step, sid: string, n: nat)
    requires Legal(cfg, init, steps) && Legal(cfg, init, steps + [step])
    requires CheckedFresh(cfg, init, steps, sid, n)
    ensures CheckedFresh(cfg, init, steps + [step], sid, n)
  {
    var k: nat :| FreshCheckAt(cfg, init, steps, k, sid, n);
    assert (steps + [step])[..k] == steps[..k];
    assert FreshCheckAt(cfg, init, steps + [step], k, sid, n);
  }

  /** Every key in the log, and every key on its way there, has been checked. */
  ghost predicate AllChecked(cfg: GatewayConfig, init: State, steps: seq<Step>)
    requires Legal(cfg, init, steps)
  {
    var s := Run(cfg, init, steps);
    && (forall i :: 0 <= i < |s.applied| ==> CheckedFresh(cfg, init, steps, s.applied[i].0, s.applied[i].1))
    && (forall h :: h in s.handlers && IsKey(s.handlers[h]) ==>
                      CheckedFresh(cfg, init, steps, s.handlers[h].sid, KeyNumber(s.handlers[h])))
  }

  lemma LogComesFromHandlers(cfg: GatewayConfig, s: State, step: Step)
    requires Enabled(cfg, s, step)
    ensures var t := Apply(cfg, s, step);
            && (forall i :: 0 <= i < |t.applied| ==>
                  (i < |s.applied| && t.applied[i] == s.applied[i])
                  || exists h :: h in s.handlers && IsKey(s.handlers[h])
                                 && t.applied[i] == (s.handlers[h].sid, KeyNumber(s.handlers[h])))
            && (forall h :: h in t.handlers && IsKey(t.handlers[h]) ==>
                  (h in s.handlers && IsKey(s.handlers[h]) && s.handlers[h].sid == t.handlers[h].sid
                   && KeyNumber(s.handlers[h]) == KeyNumber(t.handlers[h]))
                  || (step.KeyCheck? && step.h == h && step.sid == t.handlers[h].sid && step.sid in s.sessions
                      && step.seqNo == KeyNumber(t.handlers[h]) && s.sessions[step.sid].lastSeq < step.seqNo))
  {
  }

  lemma OneMoreChecked(cfg: GatewayConfig, init: State, steps: seq<Step>, step: Step)
    requires Legal(cfg, init, steps) && Enabled(cfg, Run(cfg, init, steps), step) && AllChecked(cfg, init, steps)
    ensures Legal(cfg, init, steps + [step]) && AllChecked(cfg, init, steps + [step])
  {
    var (s, all) := (Run(cfg, init, steps), steps + [step]);
    RunOneMore(cfg, init, steps, step);
    LogComesFromHandlers(cfg, s, step);
    var t := Run(cfg, init, all);
    forall i | 0 <= i < |t.applied|
      ensures CheckedFresh(cfg, init, all, t.applied[i].0, t.applied[i].1)
    {
      StillChecked(cfg, init, steps, step, t.applied[i].0, t.applied[i].1);
    }
    forall h | h in t.handlers && IsKey(t.handlers[h])
      ensures CheckedFresh(cfg, init, all, t.handlers[h].sid, KeyNumber(t.handlers[h]))
    {
      if h in s.handlers && IsKey(s.handlers[h]) && KeyNumber(s.handlers[h]) == KeyNumber(t.handlers[h])
         && s.handlers[h].sid == t.handlers[h].sid {
        StillChecked(cfg, init, steps, step, t.handlers[h].sid, KeyNumber(t.handlers[h]));
      } else {
        assert all[..|steps|] == steps;
        assert FreshCheckAt(cfg, init, all, |steps|, t.handlers[h].sid, KeyNumber(t.handlers[h]));
      }
    }
  }

  /** In every run, a key that reached a worker was newer than the stored number when it was checked. */
  lemma {:induction false} AppliedKeysWereNew(cfg: GatewayConfig, init: State, steps: seq<Step>)
    requires Init(cfg, init) && Legal(cfg, init, steps)
    ensures AllChecked(cfg, init, steps)
    decreases |steps|
  {
    if steps != [] {
      var front, last := steps[..|steps| - 1], steps[|steps| - 1];
      assert steps == front + [last];
      PrefixLegal(cfg, init, steps, |steps| - 1);
      LastStep(cfg, init, front, last);
      AppliedKeysWereNew(cfg, init, front);
      OneMoreChecked(cfg, init, front, last);
    }
  }

  lemma {:induction false} LastStep(cfg: GatewayConfig, s: State, front: seq<Step>, last: Step)
    requires Legal(cfg, s, front + [last]) && Legal(cfg, s, front)
    ensures Enabled(cfg, Run(cfg, s, front), last)
    ensures Run(cfg, s, front + [last]) == Apply(cfg, Run(cfg, s, front), last)
    decreases |front|
  {
    var all := front + [last];
    if front == [] {
      assert all[0] == last && all[1..] == [];
    } else {
      assert all[0] == front[0] && all[1..] == front[1..] + [last];
      LastStep(cfg, Apply(cfg, s, front[0]), front[1..], last);
    }
  }

  // ----- the idle limit -----

  /** A scan lists exactly the sessions whose last activity lies more than the limit back. */
  lemma ScanListsTheIdle(cfg: GatewayConfig, s: State, at: nat, ids: seq<string>)
    requires Enabled(cfg, s, ReapScan(at, ids))
    ensures forall sid :: sid in ids <==> sid in s.sessions && s.sessions[sid].lastActive + cfg.ttl < at
  {
  }

  /** Step `k` is the scan that listed these ids, each idle for more than the limit at that time. */
  ghost predicate IdleScanAt(cfg: GatewayConfig, init: State, steps: seq<Step>, k: nat, ids: seq<string>)
    requires Legal(cfg, init, steps)
  {
    && k < |steps| && steps[k].ReapScan? && steps[k].ids == ids && Legal(cfg, init, steps[..k])
    && var s := Run(cfg, init, steps[..k]);
       forall sid :: sid in ids ==> sid in s.sessions && s.sessions[sid].lastActive + cfg.ttl < steps[k].at
  }

  ghost predicate ListedByScan(cfg: GatewayConfig, init: State, steps: seq<Step>)
    requires Legal(cfg, init, steps)
  {
    var s := Run(cfg, init, steps);
    !s.reaper.Sleeping? ==> exists k: nat :: IdleScanAt(cfg, init, steps, k, s.reaper.ids)
  }

  lemma OneMoreListed(cfg: GatewayConfig, init: State, steps: seq<Step>, step: Step)
    requires Legal(cfg, init, steps) && Enabled(cfg, Run(cfg, init, steps), step) && ListedByScan(cfg, init, steps)
    ensures Legal(cfg, init, steps + [step]) && ListedByScan(cfg, init, steps + [step])
  {
    var (s, all) := (Run(cfg, init, steps), steps + [step]);
    RunOneMore(cfg, init, steps, step);
    var t := Run(cfg, init, all);
    assert all[..|steps|] == steps;
    if step.ReapScan? {
      ScanListsTheIdle(cfg, s, step.at, step.ids);
      assert IdleScanAt(cfg, init, all, |steps|, step.ids);
    } else if !t.reaper.Sleeping? {
      assert s.reaper.ids == t.reaper.ids;
      var k: nat :| IdleScanAt(cfg, init, steps, k, s.reaper.ids);
      assert all[..k] == steps[..k];
      assert IdleScanAt(cfg, init, all, k, t.reaper.ids);
    }
  }

  lemma {:induction false} ListsComeFromScans(cfg: GatewayConfig, init: State, steps: seq<Step>)
    requires Init(cfg, init) && Legal(cfg, init, steps)
    ensures ListedByScan(cfg, init, steps)
    decreases |steps|
  {
    if steps != [] {
      var front, last := steps[..|steps| - 1], steps[|steps| - 1];
      assert steps == front + [last];
      PrefixLegal(cfg, init, steps, |steps| - 1);
      LastStep(cfg, init, front, last);
      ListsComeFromScans(cfg, init, front);
      OneMoreListed(cfg, init, front, last);
    }
  }

  /** In every run, a session that the reaper removes had been idle for more than the limit at the scan before. */
  lemma RemovedSessionsWereIdle(cfg: GatewayConfig, init: State, steps: seq<Step>, sid: string)
    requires Init(cfg, init) && Legal(cfg, init, steps)
    requires var s := Run(cfg, init, steps);
             Enabled(cfg, s, ReapRemove) && sid in s.sessions && sid !in Apply(cfg, s, ReapRemove).sessions
    ensures exists k: nat ::
              && k < |steps| && steps[k].ReapScan? && Legal(cfg, init, steps[..k])
              && var s := Run(cfg, init, steps[..k]);
                 sid in s.sessions && s.sessions[sid].lastActive + cfg.ttl < steps[k].at
  {
    ListsComeFromScans(cfg, init, steps);
    var s := Run(cfg, init, steps);
    var k: nat :| IdleScanAt(cfg, init, steps, k, s.reaper.ids);
    assert sid in s.reaper.ids;
  }

  /** A step that counts as use of a session. */
  ghost predicate UsesSession(cfg: GatewayConfig, s: State, step: Step, sid: string) {
    && Enabled(cfg, s, step)
    && match step
       case OpenInsert(id) => id == sid
       case KeyStore(h) => s.handlers[h].sid == sid && sid in s.sessions
       case Touch(_, id, _, _) => id == sid && sid in s.sessions
       case _ => false
  }

  ghost predicate ActiveSince(s: State, sid: string, time: nat) {
    time <= s.now && (sid in s.sessions ==> s.sessions[sid].lastActive >= time)
  }

  lemma {:induction false} ActivityIsNotForgotten(
      cfg: GatewayConfig, s: State, steps: seq<Step>, sid: string, time: nat)
    requires Legal(cfg, s, steps) && ActiveSince(s, sid, time)
    ensures ActiveSince(Run(cfg, s, steps), sid, time)
    decreases |steps|
  {
    if steps != [] {
      var t := Apply(cfg, s, steps[0]);
      assert ActiveSince(t, sid, time);
      ActivityIsNotForgotten(cfg, t, steps[1..], sid, time);
    }
  }

  /** In every run, a session used at some time is in no scan until the limit has passed since. */
  lemma UsedSessionIsSafeUntilTheLimit(
      cfg: GatewayConfig, s: State, use: Step, steps: seq<Step>, sid: string, at: nat, ids: seq<string>)
    requires UsesSession(cfg, s, use, sid) && Legal(cfg, Apply(cfg, s, use), steps)
    requires Enabled(cfg, Run(cfg, Apply(cfg, s, use), steps), ReapScan(at, ids)) && at <= s.now + cfg.ttl
    ensures sid !in ids
  {
    var t := Apply(cfg, s, use);
    assert sid in t.sessions && t.sessions[sid].lastActive == s.now && t.now == s.now;
    ActivityIsNotForgotten(cfg, t, steps, sid, s.now);
    ScanListsTheIdle(cfg, Run(cfg, t, steps), at, ids);
  }
}
