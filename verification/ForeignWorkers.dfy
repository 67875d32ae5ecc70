/** When a handler can come to hold, and use, the worker of another session. */
module ForeignWorkers {
  import opened Wrappers
  import opened WorkerIds
  import opened WorkerPools
  import opened Gateway
  import opened GatewayRuns
  import opened GatewayWitnesses

  /** The worker a handler captured is bound to another session by now. */
  ghost predicate Foreign(s: State, h: nat) {
    && h in s.handlers
    && exists other ::
         other in s.pool.busy && other != s.handlers[h].sid && s.pool.busy[other] == s.handlers[h].worker
  }

  /** And what is still to come of it is a key, which the worker will be given. */
  ghost predicate StrayKey(cfg: GatewayConfig, s: State, h: nat) {
    && Foreign(s, h) && Enabled(cfg, s, UsePool(h)) && IsKey(s.handlers[h])
    && Apply(cfg, s, UsePool(h)).applied == s.applied + [(s.handlers[h].sid, KeyNumber(s.handlers[h]))]
  }

  ghost predicate SomeHandlerHoldsForeign(cfg: GatewayConfig) {
    exists init, steps, h :: Init(cfg, init) && Legal(cfg, init, steps) && Foreign(Run(cfg, init, steps), h)
  }

  ghost predicate SomeKeyGoesAstray(cfg: GatewayConfig) {
    exists init, steps, h :: Init(cfg, init) && Legal(cfg, init, steps) && StrayKey(cfg, Run(cfg, init, steps), h)
  }

  // ----- without a queue: released workers are killed, and their ids do not come back -----

  /** The captured worker is still the session's own, or it is gone for good. */
  ghost predicate OwnOrDead(p: Pool, c: Handler) {
    || (c.sid in p.busy && p.busy[c.sid] == c.worker)
    || (c.worker !in p.workers && IdNumber(c.worker) <= p.nextId)
  }

  ghost predicate AllOwnOrDead(s: State) {
    forall h :: h in s.handlers ==> OwnOrDead(s.pool, s.handlers[h])
  }

  lemma {:induction false} ReleasedWorkersDie(p: Pool, cfg: Config, sids: seq<string>)
    requires PoolInv(p) && cfg.maxIdle == 0
    ensures ReleaseAll(p, cfg, sids).workers <= p.workers
    ensures forall sid :: sid in sids && sid in p.busy ==> p.busy[sid] !in ReleaseAll(p, cfg, sids).workers
    decreases |sids|
  {
    if sids != [] {
      var q := Release(p, cfg, sids[0]);
      ReleaseKeeps(p, cfg, sids[0]);
      ReleasedWorkersDie(q, cfg, sids[1..]);
      assert sids == [sids[0]] + sids[1..];
    }
  }

  lemma ReapedWorkersDie(p: Pool, cfg: Config, sids: seq<string>, spawnable: set<nat>, c: Handler)
    requires PoolInv(p) && cfg.maxIdle == 0 && OwnOrDead(p, c)
    ensures OwnOrDead(Reap(p, cfg, sids, spawnable), c)
  {
    ReapKeeps(p, cfg, sids, spawnable);
    ReleaseAllKeeps(p, cfg, sids);
    ReleasedWorkersDie(p, cfg, sids);
    var q := ReleaseAll(p, cfg, sids);
    TrimKeeps(q, cfg);
    PrewarmKeeps(Trim(q, cfg), cfg, spawnable);
    assert Trim(q, cfg).workers <= q.workers;
  }

  lemma StepKeepsOwnOrDead(cfg: GatewayConfig, s: State, step: Step)
    requires Inv(cfg, s) && Enabled(cfg, s, step) && cfg.pool.maxIdle == 0 && AllOwnOrDead(s)
    ensures AllOwnOrDead(Apply(cfg, s, step))
  {
    var t := Apply(cfg, s, step);
    match step
    case OpenAcquire(sid, want, spawnable, resetOk) => AcquireKeeps(s.pool, sid, want, spawnable, resetOk);
    case ReapRelease(spawnable) =>
      forall h | h in t.handlers
        ensures OwnOrDead(t.pool, t.handlers[h])
      {
        ReapedWorkersDie(s.pool, cfg.pool, s.reaper.ids, spawnable, s.handlers[h]);
      }
    case _ =>
  }

  lemma {:induction false} NeverForeignWithoutQueue(cfg: GatewayConfig, s: State, steps: seq<Step>, h: nat)
    requires Inv(cfg, s) && Legal(cfg, s, steps) && cfg.pool.maxIdle == 0 && AllOwnOrDead(s)
    ensures !Foreign(Run(cfg, s, steps), h)
    decreases |steps|
  {
    if steps != [] {
      StepKeeps(cfg, s, steps[0]);
      StepKeepsOwnOrDead(cfg, s, steps[0]);
      NeverForeignWithoutQueue(cfg, Apply(cfg, s, steps[0]), steps[1..], h);
    }
  }

  // ----- with a queue: a run that sends a key astray -----

  lemma BoundElsewhereIsStray(cfg: GatewayConfig, s: State)
    requires PoolInv(s.pool) && 0 in s.handlers
    requires s.handlers[0].Using? && s.handlers[0].sid == "a" && IsKey(s.handlers[0])
    requires "b" in s.pool.busy && s.pool.busy["b"] == s.handlers[0].worker
    ensures StrayKey(cfg, s, 0)
  {
  }

  /** A key is held up while its session expires; after another open it reaches the new session's worker. */
  lemma AKeyGoesAstray(cfg: GatewayConfig) returns (steps: seq<Step>)
    requires cfg.pool.maxIdle > 0
    ensures Init(cfg, StartState(cfg)) && Legal(cfg, StartState(cfg), steps)
    ensures StrayKey(cfg, Run(cfg, StartState(cfg), steps), 0)
  {
    var held := AKeyIsHeldUp(cfg);
    var s := Run(cfg, StartState(cfg), held);
    var reaped := FreedWorkerServesNextOpen(cfg, s, 0, "b");
    RunAppend(cfg, StartState(cfg), held, reaped);
    steps := held + reaped;
    RunKeeps(cfg, s, reaped);
    BoundElsewhereIsStray(cfg, Run(cfg, s, reaped));
  }

  /**
   * Some run lets a handler hold a foreign worker, and some run even gives a key to one, if and only if the pool is
   * configured to keep released workers.
   */
  lemma ForeignWorkerIff(cfg: GatewayConfig)
    ensures SomeHandlerHoldsForeign(cfg) <==> cfg.pool.maxIdle > 0
    ensures SomeKeyGoesAstray(cfg) <==> cfg.pool.maxIdle > 0
  {
    if cfg.pool.maxIdle > 0 {
      var steps := AKeyGoesAstray(cfg);
      assert StrayKey(cfg, Run(cfg, StartState(cfg), steps), 0) && Foreign(Run(cfg, StartState(cfg), steps), 0);
    } else {
      forall init, steps, h | Init(cfg, init) && Legal(cfg, init, steps)
        ensures !Foreign(Run(cfg, init, steps), h)
      {
        InitEstablishes(cfg, init);
        NeverForeignWithoutQueue(cfg, init, steps, h);
      }
    }
  }
}
