/**
 * The shared state of the gateway as an object: one method for each critical section of `Gateway`. Its ghost
 * parameter is the whole state the section starts from; the method leaves table and pool as the matching step does.
 */
module GatewayObjects {
  import opened Wrappers
  import opened WorkerPools
  import opened Gateway

  class GatewayState {
    const cfg: GatewayConfig
    const pool: WorkerPool
    var sessions: Table

    /** Table and pool are those of `s`. */
    ghost predicate Shows(s: State)
      reads this, pool
    {
      sessions == s.sessions && pool.Abs() == s.pool && pool.cfg == cfg.pool
    }

    constructor (pool: WorkerPool, ttl: nat)
      ensures this.pool == pool && cfg == GatewayConfig(pool.cfg, ttl) && sessions == map[]
    {
      this.pool, cfg, sessions := pool, GatewayConfig(pool.cfg, ttl), map[];
    }

    method OpenAcquire(ghost s: State, sid: string, wantPrewarmed: bool, spawnable: set<nat>, resetOk: bool)
      returns (r: Option<string>)
      requires Shows(s) && PoolInv(s.pool) && sid !in s.pool.busy
      requires Enabled(cfg, s, Step.OpenAcquire(sid, wantPrewarmed, spawnable, resetOk))
      modifies pool
      ensures var t := Apply(cfg, s, Step.OpenAcquire(sid, wantPrewarmed, spawnable, resetOk));
              && Shows(t) && PoolInv(t.pool)
              && t.opening == if r.Some? then s.opening[sid := r.value] else s.opening
    {
      AcquireKeeps(s.pool, sid, wantPrewarmed, spawnable, resetOk);
      r := pool.AcquireForSession(sid, wantPrewarmed, spawnable, resetOk);
    }

    method OpenInsert(ghost s: State, sid: string, worker: string, now: nat)
      requires Shows(s) && Enabled(cfg, s, Step.OpenInsert(sid)) && s.opening[sid] == worker && s.now == now
      modifies this
      ensures Shows(Apply(cfg, s, Step.OpenInsert(sid)))
    {
      sessions := sessions[sid := Session(worker, 0, now)];
    }

    /** Read lock: the captured worker and whether the number is out of order; `None` is "session not found". */
    method KeyCheck(ghost s: State, ghost h: nat, sid: string, seqNo: nat) returns (r: Option<(string, bool)>)
      requires Shows(s) && Enabled(cfg, s, Step.KeyCheck(h, sid, seqNo))
      ensures var t := Apply(cfg, s, Step.KeyCheck(h, sid, seqNo));
              && Shows(t)
              && match r
                 case None => t == s && sid !in s.sessions
                 case Some((worker, stale)) =>
                   && h in t.handlers
                   && t.handlers[h] == if stale then Using(sid, worker, Snapshot) else KeyPassed(sid, worker, seqNo)
    {
      if sid !in sessions {
        return None;
      }
      var session := sessions[sid];
      r := Some((session.worker, seqNo <= session.lastSeq));
    }

    /** `found` is false if the session has gone since the check: the request ends. */
    method KeyStore(ghost s: State, ghost h: nat, sid: string, seqNo: nat, now: nat) returns (found: bool)
      requires Shows(s) && Enabled(cfg, s, Step.KeyStore(h)) && s.now == now
      requires s.handlers[h].sid == sid && s.handlers[h].seqNo == seqNo
      modifies this
      ensures var t := Apply(cfg, s, Step.KeyStore(h)); Shows(t) && found == (h in t.handlers)
    {
      found := sid in sessions;
      if found {
        sessions := sessions[sid := sessions[sid].(lastSeq := seqNo, lastActive := now)];
      }
    }

    /** The shared first section of query, commit and (with number 0) reset. */
    method TouchSession(ghost s: State, ghost h: nat, sid: string, seqNo: nat, ghost op: Op, now: nat)
      returns (worker: Option<string>)
      requires Shows(s) && Enabled(cfg, s, Touch(h, sid, seqNo, op)) && s.now == now
      modifies this
      ensures var t := Apply(cfg, s, Touch(h, sid, seqNo, op));
              && Shows(t)
              && match worker
                 case None => t == s && sid !in s.sessions
                 case Some(w) => h in t.handlers && t.handlers[h] == Using(sid, w, op)
    {
      if sid !in sessions {
        return None;
      }
      var session := sessions[sid];
      if seqNo > 0 {
        session := session.(lastSeq := Max(session.lastSeq, seqNo));
      }
      sessions := sessions[sid := session.(lastActive := now)];
      worker := Some(session.worker);
    }

    method ReapScan(ghost s: State, at: nat) returns (ids: seq<string>)
      requires Shows(s) && s.reaper.Sleeping? && at <= s.now
      ensures Enabled(cfg, s, Step.ReapScan(at, ids)) && Shows(Apply(cfg, s, Step.ReapScan(at, ids)))
    {
      ids := [];
      var rest := sessions.Keys;
      while rest != {}
        invariant rest <= sessions.Keys && NoDuplicates(ids)
        invariant forall sid :: sid in ids <==> sid in sessions.Keys - rest && Expired(sessions[sid], at, cfg.ttl)
        decreases rest
      {
        var sid :| sid in rest;
        rest := rest - {sid};
        if Expired(sessions[sid], at, cfg.ttl) {
          ids := ids + [sid];
        }
      }
    }

    method ReapRemove(ghost s: State, ids: seq<string>)
      requires Shows(s) && Enabled(cfg, s, Step.ReapRemove) && s.reaper.ids == ids
      modifies this
      ensures Shows(Apply(cfg, s, Step.ReapRemove))
    {
      var i := 0;
      while i < |ids|
        invariant i <= |ids| && pool.Abs() == s.pool
        invariant sessions == s.sessions - Elements(ids[..i])
      {
        sessions := sessions - {ids[i]};
        i := i + 1;
        assert ids[..i] == ids[..i - 1] + [ids[i - 1]];
      }
      assert ids[..i] == ids;
    }

    method ReapRelease(ghost s: State, ids: seq<string>, spawnable: set<nat>)
      requires Shows(s) && PoolInv(s.pool) && Enabled(cfg, s, Step.ReapRelease(spawnable)) && s.reaper.ids == ids
      modifies pool
      ensures Shows(Apply(cfg, s, Step.ReapRelease(spawnable))) && PoolInv(pool.Abs())
    {
      ReapKeeps(s.pool, pool.cfg, ids, spawnable);
      var i := 0;
      while i < |ids|
        invariant i <= |ids| && PoolInv(pool.Abs()) && sessions == s.sessions
        invariant ReleaseAll(pool.Abs(), pool.cfg, ids[i..]) == ReleaseAll(s.pool, pool.cfg, ids)
      {
        pool.ReleaseForSession(ids[i]);
        i := i + 1;
        assert ids[i - 1..][1..] == ids[i..];
      }
      pool.TrimIdle();
      pool.PrewarmPool(spawnable);
    }
  }
}
