/** The worker pool of the v1 Rust host. `Pool` is the specification value, `WorkerPool` the mutable object. */
module WorkerPools {
  import opened Wrappers
  import opened WorkerIds

  datatype Config = Config(minIdle: nat, maxIdle: nat, prewarm: bool)

  /** `workers` is the key set of the process registry; the processes themselves are outside the model. */
  datatype Pool = Pool(nextId: nat, idle: seq<string>, busy: map<string, string>, workers: set<string>)

  const EMPTY := Pool(0, [], map[], {})

  // ----- the operations, as functions -----
  // A spawn attempt is named by the counter value it consumes; `spawnable` holds the attempts that succeed.

  function Spawn(p: Pool, spawnable: set<nat>): (Pool, Option<string>) {
    var n := p.nextId + 1;
    if n in spawnable
    then (p.(nextId := n, workers := p.workers + {WorkerId(n)}), Some(WorkerId(n)))
    else (p.(nextId := n), None)
  }

  function Prewarm(p: Pool, cfg: Config, spawnable: set<nat>): Pool
    decreases cfg.minIdle - |p.idle|
  {
    if |p.idle| < cfg.minIdle then
      match Spawn(p, spawnable)
      case (q, Some(id)) => Prewarm(q.(idle := q.idle + [id]), cfg, spawnable)
      case (q, None) => q
    else p
  }

  /** The worker an acquire starts from: the head of the idle queue if wanted and there is one, else a new one. */
  function Obtain(p: Pool, wantPrewarmed: bool, spawnable: set<nat>): (Pool, Option<string>) {
    if wantPrewarmed && p.idle != [] then (p.(idle := p.idle[1..]), Some(p.idle[0])) else Spawn(p, spawnable)
  }

  function Acquire(p: Pool, sid: string, wantPrewarmed: bool, spawnable: set<nat>, resetOk: bool)
    : (Pool, Option<string>)
  {
    match Obtain(p, wantPrewarmed, spawnable)
    case (q, None) => (q, None)
    case (q, Some(w)) =>
      if w in q.workers && resetOk then (q.(busy := q.busy[sid := w]), Some(w)) else (q, None)
  }

  function Release(p: Pool, cfg: Config, sid: string): Pool {
    if sid !in p.busy then p
    else if |p.idle| < cfg.maxIdle then p.(busy := p.busy - {sid}, idle := p.idle + [p.busy[sid]])
    else p.(busy := p.busy - {sid}, workers := p.workers - {p.busy[sid]})
  }

  function ReleaseAll(p: Pool, cfg: Config, sids: seq<string>): Pool
    decreases |sids|
  {
    if sids == [] then p else ReleaseAll(Release(p, cfg, sids[0]), cfg, sids[1..])
  }

  function Trim(p: Pool, cfg: Config): Pool
    decreases |p.idle|
  {
    if |p.idle| > cfg.maxIdle
    then Trim(p.(idle := p.idle[..|p.idle| - 1], workers := p.workers - {p.idle[|p.idle| - 1]}), cfg)
    else p
  }

  /** The pool section of one reaper tick. */
  function Reap(p: Pool, cfg: Config, sids: seq<string>, spawnable: set<nat>): Pool {
    Prewarm(Trim(ReleaseAll(p, cfg, sids), cfg), cfg, spawnable)
  }

  // ----- what every operation keeps -----

  ghost predicate NoDuplicates<T(!new)>(s: seq<T>) {
    forall i, j :: 0 <= i < j < |s| ==> s[i] != s[j]
  }

  ghost predicate Injective(m: map<string, string>) {
    forall a, b :: a in m && b in m && a != b ==> m[a] != m[b]
  }

  ghost predicate PoolInv(p: Pool) {
    && NoDuplicates(p.idle)
    && (forall w :: w in p.idle ==> w in p.workers)
    && (forall sid :: sid in p.busy ==> p.busy[sid] in p.workers && p.busy[sid] !in p.idle)
    && Injective(p.busy)
    && (forall w :: w in p.workers ==> 1 <= IdNumber(w) <= p.nextId)
  }

  ghost function Elements<T>(s: seq<T>): set<T> {
    set x | x in s
  }

  /** Registered workers that neither queue nor session refers to. */
  ghost function Orphans(p: Pool): set<string> {
    p.workers - Elements(p.idle) - p.busy.Values
  }

  /** Ids only move forward: whatever `q` registers beyond `p` carries a number `p` had not reached. */
  ghost predicate OnlyNewIds(p: Pool, q: Pool) {
    && p.nextId <= q.nextId
    && forall w :: w in q.workers && w !in p.workers ==> IdNumber(w) > p.nextId
  }

  ghost predicate IdleBounded(p: Pool, cfg: Config) {
    |p.idle| <= cfg.minIdle || |p.idle| <= cfg.maxIdle
  }

  lemma FreshId(p: Pool)
    requires PoolInv(p)
    ensures WorkerId(p.nextId + 1) !in p.workers
    ensures IdNumber(WorkerId(p.nextId + 1)) == p.nextId + 1
  {
    IdNumberInvertsWorkerId(p.nextId + 1);
  }

  lemma SpawnKeeps(p: Pool, spawnable: set<nat>)
    requires PoolInv(p)
    ensures var (q, got) := Spawn(p, spawnable);
            PoolInv(q) && Orphans(q) == Orphans(p) + (if got.Some? then {got.value} else {})
            && (got.Some? ==> got.value in q.workers - p.workers) && OnlyNewIds(p, q)
  {
    FreshId(p);
  }

  lemma {:induction false} PrewarmKeeps(p: Pool, cfg: Config, spawnable: set<nat>)
    requires PoolInv(p)
    ensures var q := Prewarm(p, cfg, spawnable);
            && PoolInv(q) && Orphans(q) == Orphans(p) && q.busy == p.busy
            && p.workers <= q.workers && p.idle <= q.idle && OnlyNewIds(p, q)
            && (IdleBounded(p, cfg) ==> IdleBounded(q, cfg))
            && (|q.idle| < cfg.minIdle ==> q.nextId !in spawnable)
    decreases cfg.minIdle - |p.idle|
  {
    if |p.idle| < cfg.minIdle {
      SpawnKeeps(p, spawnable);
      var (q, got) := Spawn(p, spawnable);
      if got.Some? {
        var r := q.(idle := q.idle + [got.value]);
        assert Orphans(r) == Orphans(p);
        PrewarmKeeps(r, cfg, spawnable);
      }
    }
  }

  /** Until it is bound, an obtained worker is registered but belongs to nobody. */
  lemma ObtainKeeps(p: Pool, wantPrewarmed: bool, spawnable: set<nat>)
    requires PoolInv(p)
    ensures var (q, got) := Obtain(p, wantPrewarmed, spawnable);
            && PoolInv(q) && q.busy == p.busy && |q.idle| <= |p.idle| && p.workers <= q.workers && OnlyNewIds(p, q)
            && (got.Some? ==> got.value in q.workers && got.value !in q.idle && got.value !in q.busy.Values)
            && Orphans(q) == Orphans(p) + (if got.Some? then {got.value} else {})
  {
    SpawnKeeps(p, spawnable);
    if wantPrewarmed && p.idle != [] {
      var q := Obtain(p, wantPrewarmed, spawnable).0;
      assert p.idle == [p.idle[0]] + q.idle;
    }
  }

  lemma BindKeeps(p: Pool, sid: string, w: string)
    requires PoolInv(p) && sid !in p.busy
    requires w in p.workers && w !in p.idle && w !in p.busy.Values
    ensures var q := p.(busy := p.busy[sid := w]);
            PoolInv(q) && Orphans(q) == Orphans(p) - {w}
  {
    var q := p.(busy := p.busy[sid := w]);
    assert forall s :: s in p.busy ==> q.busy[s] == p.busy[s] && p.busy[s] in p.busy.Values;
    assert q.busy[sid] == w;
    assert q.busy.Values == p.busy.Values + {w};
  }

  /** An acquire adds an orphan exactly when it obtained a worker and then failed. */
  lemma AcquireKeeps(p: Pool, sid: string, wantPrewarmed: bool, spawnable: set<nat>, resetOk: bool)
    requires PoolInv(p) && sid !in p.busy
    ensures var (q, r) := Acquire(p, sid, wantPrewarmed, spawnable, resetOk);
            var got := Obtain(p, wantPrewarmed, spawnable).1;
            && PoolInv(q) && |q.idle| <= |p.idle| && p.workers <= q.workers && OnlyNewIds(p, q)
            && (r.Some? <==> got.Some? && resetOk)
            && q.busy == (if r.Some? then p.busy[sid := r.value] else p.busy)
            && (r.Some? ==> r.value !in p.busy.Values)
            && Orphans(q) == Orphans(p) + (if got.Some? && r.None? then {got.value} else {})
  {
    ObtainKeeps(p, wantPrewarmed, spawnable);
    var (q, got) := Obtain(p, wantPrewarmed, spawnable);
    if got.Some? && resetOk {
      BindKeeps(q, sid, got.value);
      assert got.value !in Orphans(p) by {
        SpawnKeeps(p, spawnable);
      }
    }
  }

  lemma ReleaseKeeps(p: Pool, cfg: Config, sid: string)
    requires PoolInv(p)
    ensures var q := Release(p, cfg, sid);
            PoolInv(q) && Orphans(q) == Orphans(p) && q.busy == p.busy - {sid} && OnlyNewIds(p, q)
            && (IdleBounded(p, cfg) ==> IdleBounded(q, cfg))
  {
    var q := Release(p, cfg, sid);
    if sid in p.busy {
      var w := p.busy[sid];
      assert q.busy.Values == p.busy.Values - {w} by {
        forall v | v in p.busy.Values - {w} ensures v in q.busy.Values {
          var s :| s in p.busy && p.busy[s] == v;
          assert s in q.busy && q.busy[s] == v;
        }
      }
      assert Orphans(q) == Orphans(p);
    } else {
      assert p.busy - {sid} == p.busy;
    }
  }

  lemma MinusTwice(m: map<string, string>, sid: string, more: set<string>)
    ensures m - ({sid} + more) == m - {sid} - more
  {
  }

  lemma {:induction false} ReleaseAllKeeps(p: Pool, cfg: Config, sids: seq<string>)
    requires PoolInv(p)
    ensures var q := ReleaseAll(p, cfg, sids);
            PoolInv(q) && Orphans(q) == Orphans(p) && q.busy == p.busy - Elements(sids) && OnlyNewIds(p, q)
            && (IdleBounded(p, cfg) ==> IdleBounded(q, cfg))
    decreases |sids|
  {
    if sids == [] {
      assert p.busy - Elements(sids) == p.busy;
    } else {
      ReleaseKeeps(p, cfg, sids[0]);
      ReleaseAllKeeps(Release(p, cfg, sids[0]), cfg, sids[1..]);
      assert sids == [sids[0]] + sids[1..];
      assert Elements(sids) == {sids[0]} + Elements(sids[1..]);
      MinusTwice(p.busy, sids[0], Elements(sids[1..]));
    }
  }

  /** Trimming unregisters exactly the tail of the queue beyond `max_idle`. */
  lemma {:induction false} TrimKeeps(p: Pool, cfg: Config)
    requires PoolInv(p)
    ensures var q := Trim(p, cfg);
            && PoolInv(q) && Orphans(q) == Orphans(p) && q.busy == p.busy && q.nextId == p.nextId
            && (|p.idle| <= cfg.maxIdle ==> q == p)
            && (|p.idle| > cfg.maxIdle ==> q.idle == p.idle[..cfg.maxIdle]
                                           && q.workers == p.workers - Elements(p.idle[cfg.maxIdle..]))
    decreases |p.idle|
  {
    if |p.idle| > cfg.maxIdle {
      var n := |p.idle| - 1;
      var q := p.(idle := p.idle[..n], workers := p.workers - {p.idle[n]});
      assert p.idle == q.idle + [p.idle[n]];
      assert PoolInv(q);
      assert Orphans(q) == Orphans(p);
      TrimKeeps(q, cfg);
      assert p.idle[cfg.maxIdle..] == q.idle[cfg.maxIdle..] + [p.idle[n]];
    }
  }

  /** With `min_idle <= max_idle` the queue never outgrows `max_idle`, so a reaper tick never kills a queued worker. */
  lemma TrimNeverRemoves(p: Pool, cfg: Config, sids: seq<string>)
    requires PoolInv(p) && IdleBounded(p, cfg) && cfg.minIdle <= cfg.maxIdle
    ensures var q := ReleaseAll(p, cfg, sids); Trim(q, cfg) == q
  {
    ReleaseAllKeeps(p, cfg, sids);
  }

  /** If the spawns it needs succeed, prewarming fills the queue to `min_idle`. */
  lemma {:induction false} PrewarmRefills(p: Pool, cfg: Config, spawnable: set<nat>)
    requires |p.idle| <= cfg.minIdle
    requires forall n :: p.nextId < n <= p.nextId + cfg.minIdle - |p.idle| ==> n in spawnable
    ensures var q := Prewarm(p, cfg, spawnable);
            |q.idle| == cfg.minIdle && q.nextId == p.nextId + cfg.minIdle - |p.idle| && p.idle <= q.idle
    decreases cfg.minIdle - |p.idle|
  {
    if |p.idle| < cfg.minIdle {
      var (q, got) := Spawn(p, spawnable);
      assert got.Some?;
      PrewarmRefills(q.(idle := q.idle + [got.value]), cfg, spawnable);
    }
  }

  /** With `min_idle > max_idle` a tick over a full queue kills the surplus and spawns the same number again. */
  lemma MisconfiguredPoolChurns(p: Pool, cfg: Config, spawnable: set<nat>)
    requires PoolInv(p) && cfg.maxIdle < cfg.minIdle == |p.idle|
    requires forall n :: p.nextId < n <= p.nextId + cfg.minIdle - cfg.maxIdle ==> n in spawnable
    ensures var q := Reap(p, cfg, [], spawnable);
            |q.idle| == |p.idle| && q.idle[..cfg.maxIdle] == p.idle[..cfg.maxIdle]
            && q.nextId == p.nextId + (cfg.minIdle - cfg.maxIdle)
  {
    TrimKeeps(p, cfg);
    var t := Trim(p, cfg);
    PrewarmRefills(t, cfg, spawnable);
    var q := Prewarm(t, cfg, spawnable);
    assert q.idle[..cfg.maxIdle] == t.idle;
  }

  /** One reaper tick: every listed session loses its worker, nothing is orphaned, the bound holds again. */
  lemma ReapKeeps(p: Pool, cfg: Config, sids: seq<string>, spawnable: set<nat>)
    requires PoolInv(p)
    ensures var q := Reap(p, cfg, sids, spawnable);
            PoolInv(q) && Orphans(q) == Orphans(p) && q.busy == p.busy - Elements(sids) && OnlyNewIds(p, q)
            && IdleBounded(q, cfg)
  {
    ReleaseAllKeeps(p, cfg, sids);
    var q := ReleaseAll(p, cfg, sids);
    TrimKeeps(q, cfg);
    PrewarmKeeps(Trim(q, cfg), cfg, spawnable);
  }

  // ----- conservation -----

  lemma {:induction false} DistinctCount<T(!new)>(s: seq<T>)
    requires NoDuplicates(s)
    ensures |Elements(s)| == |s|
  {
    if s != [] {
      var n := |s| - 1;
      DistinctCount(s[..n]);
      assert s == s[..n] + [s[n]];
      assert Elements(s) == Elements(s[..n]) + {s[n]};
    }
  }

  lemma {:induction false} InjectiveCount(m: map<string, string>)
    requires Injective(m)
    ensures |m.Values| == |m|
    decreases |m|
  {
    if k :| k in m {
      var rest := m - {k};
      assert m.Keys == rest.Keys + {k};
      assert forall a :: a in rest ==> rest[a] == m[a];
      assert m.Values == rest.Values + {m[k]} by {
        forall v | v in m.Values ensures v in rest.Values + {m[k]} {
          var a :| a in m && m[a] == v;
          if a != k { assert rest[a] == v; }
        }
      }
      InjectiveCount(rest);
      assert |m.Keys| == |rest.Keys| + 1;
    }
  }

  lemma ThreeWayCount<T>(all: set<T>, a: set<T>, b: set<T>)
    requires a <= all && b <= all && a !! b
    ensures |all| == |a| + |b| + |all - a - b|
  {
    assert all == a + (all - a) && all - a == b + (all - a - b);
    assert |all - a| == |b| + |all - a - b|;
  }

  lemma QueuedAndBoundAreDisjoint(p: Pool)
    requires PoolInv(p)
    ensures Elements(p.idle) !! p.busy.Values
    ensures Elements(p.idle) <= p.workers && p.busy.Values <= p.workers
  {
  }

  /** No worker is counted twice and none is lost: registry = queue + sessions + orphans. */
  lemma Conservation(p: Pool)
    requires PoolInv(p)
    ensures |p.workers| == |p.idle| + |p.busy| + |Orphans(p)|
  {
    DistinctCount(p.idle);
    InjectiveCount(p.busy);
    QueuedAndBoundAreDisjoint(p);
    ThreeWayCount(p.workers, Elements(p.idle), p.busy.Values);
  }

  // ----- the mutable pool -----

  class WorkerPool {
    const cfg: Config
    var nextId: nat
    var idle: seq<string>
    var busy: map<string, string>
    var workers: set<string>

    function Abs(): Pool
      reads this
    {
      Pool(nextId, idle, busy, workers)
    }

    constructor (cfg: Config, spawnable: set<nat>)
      ensures this.cfg == cfg
      ensures Abs() == if cfg.prewarm then Prewarm(EMPTY, cfg, spawnable) else EMPTY
      ensures PoolInv(Abs()) && IdleBounded(Abs(), cfg) && Orphans(Abs()) == {}
    {
      this.cfg := cfg;
      nextId, idle, busy, workers := 0, [], map[], {};
      new;
      if cfg.prewarm {
        PrewarmKeeps(EMPTY, cfg, spawnable);
        PrewarmPool(spawnable);
      }
    }

    method AllocateWorkerId() returns (id: string)
      modifies this`nextId
      ensures nextId == old(nextId) + 1 && id == WorkerId(nextId)
    {
      nextId := nextId + 1;
      id := WorkerId(nextId);
    }

    method SpawnWorker(spawnable: set<nat>) returns (id: Option<string>)
      modifies this`nextId, this`workers
      ensures (Abs(), id) == Spawn(old(Abs()), spawnable)
    {
      var candidate := AllocateWorkerId();
      if nextId in spawnable {
        workers := workers + {candidate};
        id := Some(candidate);
      } else {
        id := None;
      }
    }

    method PrewarmPool(spawnable: set<nat>)
      modifies this
      ensures Abs() == Prewarm(old(Abs()), cfg, spawnable)
    {
      while |idle| < cfg.minIdle
        invariant Prewarm(Abs(), cfg, spawnable) == Prewarm(old(Abs()), cfg, spawnable)
        decreases cfg.minIdle - |idle|
      {
        var got := SpawnWorker(spawnable);
        match got
        case Some(id) => idle := idle + [id];
        case None => break;
      }
    }

    method AcquireForSession(sid: string, wantPrewarmed: bool, spawnable: set<nat>, resetOk: bool)
      returns (r: Option<string>)
      requires PoolInv(Abs()) && sid !in busy
      modifies this
      ensures (Abs(), r) == Acquire(old(Abs()), sid, wantPrewarmed, spawnable, resetOk)
      ensures PoolInv(Abs())
    {
      AcquireKeeps(Abs(), sid, wantPrewarmed, spawnable, resetOk);
      var got: Option<string>;
      if wantPrewarmed && idle != [] {
        got, idle := Some(idle[0]), idle[1..];
      } else {
        got := SpawnWorker(spawnable);
      }
      if got.None? || got.value !in workers || !resetOk {
        return None;
      }
      busy := busy[sid := got.value];
      r := got;
    }

    method ReleaseForSession(sid: string)
      requires PoolInv(Abs())
      modifies this
      ensures Abs() == Release(old(Abs()), cfg, sid) && PoolInv(Abs())
    {
      ReleaseKeeps(Abs(), cfg, sid);
      if sid in busy {
        var w := busy[sid];
        busy := busy - {sid};
        if |idle| < cfg.maxIdle {
          idle := idle + [w];
        } else {
          workers := workers - {w};
        }
      }
    }

    method TrimIdle()
      requires PoolInv(Abs())
      modifies this
      ensures Abs() == Trim(old(Abs()), cfg) && PoolInv(Abs())
    {
      TrimKeeps(Abs(), cfg);
      while |idle| > cfg.maxIdle
        invariant Trim(Abs(), cfg) == Trim(old(Abs()), cfg)
        decreases |idle|
      {
        var last := idle[|idle| - 1];
        idle := idle[..|idle| - 1];
        workers := workers - {last};
      }
    }
  }
}
