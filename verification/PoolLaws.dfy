/** What the pool operations do to queue, bindings and registry, in plain terms. */
module PoolLaws {
  import opened Wrappers
  import opened Sequences
  import opened WorkerIds
  import opened WorkerPools

  /** The id's text: a fixed prefix and at least six digits. */
  lemma WorkerIdText(n: nat)
    ensures n < 10 ==> WorkerId(n) == "worker-00000" + [(n + 48) as char]
    ensures |WorkerId(n)| >= 13 && WorkerId(n)[..7] == "worker-"
    ensures forall i :: 7 <= i < |WorkerId(n)| ==> '0' <= WorkerId(n)[i] <= '9'
    ensures |WorkerId(n)| > 13 ==> WorkerId(n) == "worker-" + Decimal(n)
  {
  }

  /**
   * If a queued worker is wanted and there is one, the one that waited longest is taken and no id is used up.
   * Otherwise the next id is tried. A worker that fails its reset is not bound and not put back.
   */
  lemma WhatAnAcquireTakes(p: Pool, sid: string, wantPrewarmed: bool, spawnable: set<nat>, resetOk: bool)
    requires PoolInv(p)
    ensures var (q, r) := Acquire(p, sid, wantPrewarmed, spawnable, resetOk);
            var n := p.nextId + 1;
            if wantPrewarmed && p.idle != [] then
              && q.idle == p.idle[1..] && q.nextId == p.nextId && q.workers == p.workers
              && (if resetOk then r == Some(p.idle[0]) && q.busy == p.busy[sid := p.idle[0]]
                  else r == None && q.busy == p.busy)
            else if n in spawnable then
              && q.idle == p.idle && q.nextId == n && q.workers == p.workers + {WorkerId(n)}
              && (if resetOk then r == Some(WorkerId(n)) && q.busy == p.busy[sid := WorkerId(n)]
                  else r == None && q.busy == p.busy)
            else
              r == None && q == Pool(n, p.idle, p.busy, p.workers)
  {
  }

  /** A released worker goes to the end of the queue if there is room, and is killed otherwise. */
  lemma WhereAReleasedWorkerGoes(p: Pool, cfg: Config, sid: string)
    requires sid in p.busy
    ensures var (q, w) := (Release(p, cfg, sid), p.busy[sid]);
            && q.busy == p.busy - {sid} && q.nextId == p.nextId
            && (|p.idle| < cfg.maxIdle ==> q.idle == p.idle + [w] && q.workers == p.workers)
            && (|p.idle| >= cfg.maxIdle ==> q.idle == p.idle && q.workers == p.workers - {w})
  {
  }

  lemma ReleaseOfNobody(p: Pool, cfg: Config, sid: string)
    requires sid !in p.busy
    ensures Release(p, cfg, sid) == p
  {
  }

  /** The workers of these sessions, in order. */
  function WorkersOf(busy: map<string, string>, sids: seq<string>): (ws: seq<string>)
    requires forall i :: 0 <= i < |sids| ==> sids[i] in busy
    ensures |ws| == |sids| && forall i :: 0 <= i < |ws| ==> ws[i] == busy[sids[i]]
  {
    seq(|sids|, i requires 0 <= i < |sids| => busy[sids[i]])
  }

  lemma FirstWorker(busy: map<string, string>, later: map<string, string>, sids: seq<string>)
    requires sids != [] && forall i :: 0 <= i < |sids| ==> sids[i] in busy
    requires forall i :: 0 <= i < |sids[1..]| ==> sids[1..][i] in later && later[sids[1..][i]] == busy[sids[1..][i]]
    ensures WorkersOf(busy, sids) == [busy[sids[0]]] + WorkersOf(later, sids[1..])
  {
  }

  /** With room for all of them, released workers queue up in the order of their release. */
  lemma {:induction false} ReleasedWorkersQueueUp(p: Pool, cfg: Config, sids: seq<string>)
    requires NoDuplicates(sids) && forall i :: 0 <= i < |sids| ==> sids[i] in p.busy
    requires |p.idle| + |sids| <= cfg.maxIdle
    ensures ReleaseAll(p, cfg, sids).idle == p.idle + WorkersOf(p.busy, sids)
    ensures ReleaseAll(p, cfg, sids).workers == p.workers
    decreases |sids|
  {
    if sids != [] {
      var q, rest := Release(p, cfg, sids[0]), sids[1..];
      WhereAReleasedWorkerGoes(p, cfg, sids[0]);
      forall i | 0 <= i < |rest|
        ensures rest[i] in q.busy && q.busy[rest[i]] == p.busy[rest[i]]
      {
        assert rest[i] == sids[i + 1] != sids[0];
      }
      ReleasedWorkersQueueUp(q, cfg, rest);
      FirstWorker(p.busy, q.busy, sids);
      Regroup(p.idle, [p.busy[sids[0]]], WorkersOf(q.busy, rest));
    }
  }

  /** Opens that all succeed, each wanting a queued worker. */
  function AcquireAll(p: Pool, sids: seq<string>): Pool
    decreases |sids|
  {
    if sids == [] then p else AcquireAll(Acquire(p, sids[0], true, {}, true).0, sids[1..])
  }

  /** And they are handed out again in that order. */
  lemma {:induction false} QueuedWorkersAreHandedOutInOrder(p: Pool, sids: seq<string>)
    requires PoolInv(p) && NoDuplicates(sids) && |sids| <= |p.idle|
    requires forall i :: 0 <= i < |sids| ==> sids[i] !in p.busy
    ensures var q := AcquireAll(p, sids);
            && q.idle == p.idle[|sids|..]
            && (forall i :: 0 <= i < |sids| ==> sids[i] in q.busy && q.busy[sids[i]] == p.idle[i])
            && (forall sid :: sid in p.busy ==> sid in q.busy && q.busy[sid] == p.busy[sid])
    decreases |sids|
  {
    if sids != [] {
      var q, rest := Acquire(p, sids[0], true, {}, true).0, sids[1..];
      AcquireKeeps(p, sids[0], true, {}, true);
      WhatAnAcquireTakes(p, sids[0], true, {}, true);
      forall i | 0 <= i < |rest|
        ensures rest[i] !in q.busy
      {
        assert rest[i] == sids[i + 1] != sids[0];
      }
      QueuedWorkersAreHandedOutInOrder(q, rest);
      var last := AcquireAll(p, sids);
      forall i | 0 <= i < |sids|
        ensures sids[i] in last.busy && last.busy[sids[i]] == p.idle[i]
      {
        if i > 0 {
          assert sids[i] == rest[i - 1] && q.idle[i - 1] == p.idle[i];
        }
      }
    }
  }

  function NewIds(from: nat, k: nat): (ids: seq<string>)
    ensures |ids| == k && forall i :: 0 <= i < k ==> ids[i] == WorkerId(from + 1 + i)
  {
    seq(k, i requires 0 <= i < k => WorkerId(from + 1 + i))
  }

  /** Prewarming spawns one worker after the other, and gives up at the first failure, whose id is used up. */
  lemma {:induction false} PrewarmStopsAtTheFirstFailure(p: Pool, cfg: Config, spawnable: set<nat>, k: nat)
    requires |p.idle| + k <= cfg.minIdle || k == 0
    requires forall n :: p.nextId < n <= p.nextId + k ==> n in spawnable
    requires |p.idle| + k < cfg.minIdle ==> p.nextId + k + 1 !in spawnable
    ensures var q := Prewarm(p, cfg, spawnable);
            && q.idle == p.idle + NewIds(p.nextId, k) && q.busy == p.busy
            && q.nextId == p.nextId + k + (if |p.idle| + k < cfg.minIdle then 1 else 0)
            && (forall w :: w in q.workers <==> w in p.workers || w in NewIds(p.nextId, k))
    decreases k
  {
    if k == 0 {
      assert p.idle + NewIds(p.nextId, 0) == p.idle;
    } else {
      var (q, got) := Spawn(p, spawnable);
      assert got == Some(WorkerId(p.nextId + 1));
      var r := q.(idle := q.idle + [got.value]);
      PrewarmStopsAtTheFirstFailure(r, cfg, spawnable, k - 1);
      assert NewIds(p.nextId, k) == [WorkerId(p.nextId + 1)] + NewIds(r.nextId, k - 1);
      Regroup(p.idle, [got.value], NewIds(r.nextId, k - 1));
    }
  }
}
