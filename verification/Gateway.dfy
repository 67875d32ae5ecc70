/**
 * The v1 gateway as a state machine. Every critical section of a handler or of the reaper is one
 * atomic step; steps of different handlers interleave freely.
 */
module Gateway {
  import opened Wrappers
  import opened WorkerPools

  datatype GatewayConfig = GatewayConfig(pool: Config, ttl: nat)

  datatype Session = Session(worker: string, lastSeq: nat, lastActive: nat)

  type Table = map<string, Session>

  /** What a handler does with the worker it captured. */
  datatype Op = Snapshot | Key(seqNo: nat) | Query | Commit | Reset

  /** A handler between two critical sections. */
  datatype Handler =
    | KeyPassed(sid: string, worker: string, seqNo: nat)  // the sequence check passed, the store is still to come
    | Using(sid: string, worker: string, op: Op)        // only the pool access is still to come

  /** The single reaper task: asleep, between scan and removal, or between removal and release. */
  datatype Reaper = Sleeping | Scanned(ids: seq<string>, at: nat) | Removed(ids: seq<string>)

  datatype State = State(
    sessions: Table,
    pool: Pool,
    opening: map<string, string>,   // opens between acquire and insert, by the id they will register
    handlers: map<nat, Handler>,
    reaper: Reaper,
    now: nat,
    issued: set<string>,            // history: every session id ever generated
    leaked: set<string>,            // history: opens cancelled between acquire and insert
    applied: seq<(string, nat)>     // history: key events sent to a worker, with their sequence numbers
  )

  // ----- the session table's critical sections -----

  function Max(a: nat, b: nat): nat {
    if a < b then b else a
  }

  function Stored(t: Table, sid: string, seqNo: nat, now: nat): Table {
    if sid in t then t[sid := t[sid].(lastSeq := seqNo, lastActive := now)] else t
  }

  function Touched(t: Table, sid: string, seqNo: nat, now: nat): Table {
    if sid in t then t[sid := t[sid].(lastSeq := Max(t[sid].lastSeq, seqNo), lastActive := now)] else t
  }

  /** `now.duration_since(last_active) > ttl`; the duration saturates at zero. */
  predicate Expired(session: Session, at: nat, ttl: nat) {
    at > session.lastActive && at - session.lastActive > ttl
  }

  ghost predicate IsScan(ids: seq<string>, t: Table, at: nat, ttl: nat) {
    && NoDuplicates(ids)
    && forall sid :: sid in ids <==> sid in t && Expired(t[sid], at, ttl)
  }

  // ----- steps -----

  datatype Step =
    | OpenAcquire(sid: string, wantPrewarmed: bool, spawnable: set<nat>, resetOk: bool)
    | OpenInsert(sid: string)
    | OpenCancel(sid: string)
    | KeyCheck(h: nat, sid: string, seqNo: nat)
    | KeyStore(h: nat)
    | Touch(h: nat, sid: string, seqNo: nat, op: Op)
    | UsePool(h: nat)
    | Cancel(h: nat)
    | ReapScan(at: nat, ids: seq<string>)
    | ReapRemove
    | ReapRelease(spawnable: set<nat>)
    | Tick(d: nat)

  ghost predicate Enabled(cfg: GatewayConfig, s: State, step: Step) {
    match step
    case OpenAcquire(sid, _, _, _) => sid !in s.issued
    case OpenInsert(sid) => sid in s.opening
    case OpenCancel(sid) => sid in s.opening
    case KeyCheck(h, _, _) => h !in s.handlers
    case KeyStore(h) => h in s.handlers && s.handlers[h].KeyPassed?
    case Touch(h, _, seqNo, op) => h !in s.handlers && (op == Query || op == Commit || (op == Reset && seqNo == 0))
    case UsePool(h) => h in s.handlers && s.handlers[h].Using?
    case Cancel(h) => h in s.handlers
    case ReapScan(at, ids) => s.reaper.Sleeping? && at <= s.now && IsScan(ids, s.sessions, at, cfg.ttl)
    case ReapRemove => s.reaper.Scanned?
    case ReapRelease(_) => s.reaper.Removed?
    case Tick(_) => true
  }

  ghost function Apply(cfg: GatewayConfig, s: State, step: Step): State
    requires Enabled(cfg, s, step)
  {
    match step
    case OpenAcquire(sid, want, spawnable, resetOk) =>
      var (pool, r) := Acquire(s.pool, sid, want, spawnable, resetOk);
      s.(pool := pool, issued := s.issued + {sid},
         opening := if r.Some? then s.opening[sid := r.value] else s.opening)
    case OpenInsert(sid) =>
      s.(sessions := s.sessions[sid := Session(s.opening[sid], 0, s.now)], opening := s.opening - {sid})
    case OpenCancel(sid) =>
      s.(opening := s.opening - {sid}, leaked := s.leaked + {sid})
    case KeyCheck(h, sid, seqNo) =>
      if sid !in s.sessions then s
      else
        var w := s.sessions[sid].worker;
        var stale := seqNo <= s.sessions[sid].lastSeq;
        s.(handlers := s.handlers[h := if stale then Using(sid, w, Snapshot) else KeyPassed(sid, w, seqNo)])
    case KeyStore(h) =>
      var c := s.handlers[h];
      if c.sid !in s.sessions then s.(handlers := s.handlers - {h})
      else s.(sessions := Stored(s.sessions, c.sid, c.seqNo, s.now),
              handlers := s.handlers[h := Using(c.sid, c.worker, Key(c.seqNo))])
    case Touch(h, sid, seqNo, op) =>
      if sid !in s.sessions then s
      else s.(sessions := Touched(s.sessions, sid, seqNo, s.now),
              handlers := s.handlers[h := Using(sid, s.sessions[sid].worker, op)])
    case UsePool(h) =>
      var c := s.handlers[h];
      s.(handlers := s.handlers - {h},
         applied := if c.op.Key? && c.worker in s.pool.workers then s.applied + [(c.sid, c.op.seqNo)] else s.applied)
    case Cancel(h) => s.(handlers := s.handlers - {h})
    case ReapScan(at, ids) => if ids == [] then s else s.(reaper := Scanned(ids, at))
    case ReapRemove => s.(sessions := s.sessions - Elements(s.reaper.ids), reaper := Removed(s.reaper.ids))
    case ReapRelease(spawnable) => s.(pool := Reap(s.pool, cfg.pool, s.reaper.ids, spawnable), reaper := Sleeping)
    case Tick(d) => s.(now := s.now + d)
  }

  ghost predicate Init(cfg: GatewayConfig, s: State) {
    && s.sessions == map[] && s.opening == map[] && s.handlers == map[] && s.reaper == Sleeping
    && s.issued == {} && s.leaked == {} && s.applied == []
    && exists spawnable: set<nat> :: s.pool == if cfg.pool.prewarm then Prewarm(EMPTY, cfg.pool, spawnable) else EMPTY
  }

  // ----- the invariant -----

  ghost function BeingReaped(s: State): set<string> {
    if s.reaper.Removed? then Elements(s.reaper.ids) else {}
  }

  /** A session is bound to exactly the worker the pool holds busy for it; so is an open that is half done. */
  ghost predicate Bound(s: State) {
    && (forall sid :: sid in s.sessions ==> sid in s.pool.busy && s.pool.busy[sid] == s.sessions[sid].worker)
    && (forall sid :: sid in s.opening ==> sid in s.pool.busy && s.pool.busy[sid] == s.opening[sid])
  }

  /** Every busy entry is accounted for by exactly one party. */
  ghost predicate Accounted(s: State) {
    && s.pool.busy.Keys == s.sessions.Keys + s.opening.Keys + BeingReaped(s) + s.leaked
    && s.sessions.Keys !! s.opening.Keys
    && BeingReaped(s) !! (s.sessions.Keys + s.opening.Keys)
    && s.leaked !! (s.sessions.Keys + s.opening.Keys + BeingReaped(s))
    && s.pool.busy.Keys <= s.issued
  }

  /** The reaper holds distinct ids; a listed session was expired at the scan or has been touched since. */
  ghost predicate ReaperInv(cfg: GatewayConfig, s: State) {
    match s.reaper
    case Sleeping => true
    case Scanned(ids, at) =>
      && at <= s.now && NoDuplicates(ids)
      && forall sid :: sid in ids ==>
           sid in s.sessions && (Expired(s.sessions[sid], at, cfg.ttl) || s.sessions[sid].lastActive >= at)
    case Removed(ids) => NoDuplicates(ids)
  }

  /** A captured worker id stays right for as long as the session it was read from is in the table. */
  ghost predicate CapturedInv(s: State) {
    forall h :: h in s.handlers ==>
      var c := s.handlers[h];
      && c.sid in s.issued && c.sid !in s.opening && c.sid !in s.leaked
      && (c.sid in s.sessions ==> s.sessions[c.sid].worker == c.worker)
  }

  ghost predicate Inv(cfg: GatewayConfig, s: State) {
    && PoolInv(s.pool) && IdleBounded(s.pool, cfg.pool)
    && Bound(s) && Accounted(s) && ReaperInv(cfg, s) && CapturedInv(s)
  }

  lemma InitEstablishes(cfg: GatewayConfig, s: State)
    requires Init(cfg, s)
    ensures Inv(cfg, s) && Orphans(s.pool) == {}
  {
    var spawnable: set<nat> :| s.pool == if cfg.pool.prewarm then Prewarm(EMPTY, cfg.pool, spawnable) else EMPTY;
    PrewarmKeeps(EMPTY, cfg.pool, spawnable);
  }

  /** An acquire, whatever it does inside the pool, only adds the new session's entry. */
  lemma AcquiredKeeps(cfg: GatewayConfig, s: State, t: State, sid: string, r: Option<string>)
    requires Inv(cfg, s) && sid !in s.issued
    requires PoolInv(t.pool) && IdleBounded(t.pool, cfg.pool)
    requires t.pool.busy == if r.Some? then s.pool.busy[sid := r.value] else s.pool.busy
    requires t == s.(pool := t.pool, issued := s.issued + {sid},
                     opening := if r.Some? then s.opening[sid := r.value] else s.opening)
    ensures Inv(cfg, t)
  {
    assert sid !in s.pool.busy.Keys && sid !in s.opening.Keys && sid !in s.sessions.Keys && sid !in s.leaked;
    assert Bound(t);
    assert Accounted(t);
  }

  lemma OpenAcquireKeeps(cfg: GatewayConfig, s: State, step: Step)
    requires Inv(cfg, s) && Enabled(cfg, s, step) && step.OpenAcquire?
    ensures Inv(cfg, Apply(cfg, s, step))
  {
    AcquireKeeps(s.pool, step.sid, step.wantPrewarmed, step.spawnable, step.resetOk);
    var (pool, r) := Acquire(s.pool, step.sid, step.wantPrewarmed, step.spawnable, step.resetOk);
    AcquiredKeeps(cfg, s, Apply(cfg, s, step), step.sid, r);
  }

  lemma Cancelled(cfg: GatewayConfig, s: State, t: State, sid: string)
    requires Inv(cfg, s) && sid in s.opening
    requires t == s.(opening := s.opening - {sid}, leaked := s.leaked + {sid})
    ensures Inv(cfg, t)
  {
    assert t.opening.Keys == s.opening.Keys - {sid};
    assert Accounted(t);
  }

  lemma InsertedIsAccounted(s: State, t: State, sid: string)
    requires Accounted(s) && sid in s.opening
    requires t.pool == s.pool && t.reaper == s.reaper && t.leaked == s.leaked && t.issued == s.issued
    requires t.opening.Keys == s.opening.Keys - {sid} && t.sessions.Keys == s.sessions.Keys + {sid}
    ensures Accounted(t)
  {
    assert sid in s.opening.Keys;
    assert t.sessions.Keys + t.opening.Keys == s.sessions.Keys + s.opening.Keys;
  }

  lemma Inserted(cfg: GatewayConfig, s: State, t: State, sid: string)
    requires Inv(cfg, s) && sid in s.opening
    requires t == s.(opening := s.opening - {sid}, sessions := s.sessions[sid := Session(s.opening[sid], 0, s.now)])
    ensures Inv(cfg, t)
  {
    assert sid !in s.sessions;
    assert t.opening.Keys == s.opening.Keys - {sid} && t.sessions.Keys == s.sessions.Keys + {sid};
    InsertedIsAccounted(s, t, sid);
    assert Bound(t);
  }

  lemma OpenEndKeeps(cfg: GatewayConfig, s: State, step: Step)
    requires Inv(cfg, s) && Enabled(cfg, s, step) && (step.OpenInsert? || step.OpenCancel?)
    ensures Inv(cfg, Apply(cfg, s, step))
  {
    if step.OpenInsert? {
      Inserted(cfg, s, Apply(cfg, s, step), step.sid);
    } else {
      Cancelled(cfg, s, Apply(cfg, s, step), step.sid);
    }
  }

  /** Writing a session's counters changes neither the keys nor the workers of the table. */
  ghost predicate SameBinding(t: Table, u: Table) {
    t.Keys == u.Keys && forall sid :: sid in t ==> u[sid].worker == t[sid].worker
  }

  lemma CountersKeep(cfg: GatewayConfig, s: State, t: State)
    requires Inv(cfg, s) && SameBinding(s.sessions, t.sessions)
    requires t == s.(sessions := t.sessions, handlers := t.handlers, applied := t.applied, now := t.now)
    requires t.now >= s.now
    requires CapturedInv(t)
    requires forall sid :: sid in s.sessions && s.sessions[sid] != t.sessions[sid] ==>
                             t.sessions[sid].lastActive == s.now
    ensures Inv(cfg, t)
  {
    assert Bound(t);
    assert Accounted(t);
  }

  lemma CheckKeeps(cfg: GatewayConfig, s: State, step: Step)
    requires Inv(cfg, s) && Enabled(cfg, s, step)
    requires step.KeyCheck? || step.UsePool? || step.Cancel? || step.Tick?
    ensures Inv(cfg, Apply(cfg, s, step))
  {
    CountersKeep(cfg, s, Apply(cfg, s, step));
  }

  lemma StoreKeeps(cfg: GatewayConfig, s: State, step: Step)
    requires Inv(cfg, s) && Enabled(cfg, s, step) && step.KeyStore?
    ensures Inv(cfg, Apply(cfg, s, step))
  {
    CountersKeep(cfg, s, Apply(cfg, s, step));
  }

  lemma TouchKeeps(cfg: GatewayConfig, s: State, step: Step)
    requires Inv(cfg, s) && Enabled(cfg, s, step) && step.Touch?
    ensures Inv(cfg, Apply(cfg, s, step))
  {
    CountersKeep(cfg, s, Apply(cfg, s, step));
  }

  lemma ScanKeeps(cfg: GatewayConfig, s: State, step: Step)
    requires Inv(cfg, s) && Enabled(cfg, s, step) && step.ReapScan?
    ensures Inv(cfg, Apply(cfg, s, step))
  {
  }

  lemma RemoveKeeps(cfg: GatewayConfig, s: State, step: Step)
    requires Inv(cfg, s) && Enabled(cfg, s, step) && step.ReapRemove?
    ensures Inv(cfg, Apply(cfg, s, step))
  {
  }

  lemma ReapReleaseKeeps(cfg: GatewayConfig, s: State, step: Step)
    requires Inv(cfg, s) && Enabled(cfg, s, step) && step.ReapRelease?
    ensures Inv(cfg, Apply(cfg, s, step))
  {
    ReapKeeps(s.pool, cfg.pool, s.reaper.ids, step.spawnable);
  }

  lemma StepKeeps(cfg: GatewayConfig, s: State, step: Step)
    requires Inv(cfg, s) && Enabled(cfg, s, step)
    ensures Inv(cfg, Apply(cfg, s, step))
  {
    match step
    case OpenAcquire(_, _, _, _) => OpenAcquireKeeps(cfg, s, step);
    case OpenInsert(_) | OpenCancel(_) => OpenEndKeeps(cfg, s, step);
    case KeyStore(_) => StoreKeeps(cfg, s, step);
    case Touch(_, _, _, _) => TouchKeeps(cfg, s, step);
    case ReapScan(_, _) => ScanKeeps(cfg, s, step);
    case ReapRemove => RemoveKeeps(cfg, s, step);
    case ReapRelease(_) => ReapReleaseKeeps(cfg, s, step);
    case _ => CheckKeeps(cfg, s, step);
  }

  // ----- runs -----

  ghost predicate Legal(cfg: GatewayConfig, s: State, steps: seq<Step>)
    decreases |steps|
  {
    steps == [] || (Enabled(cfg, s, steps[0]) && Legal(cfg, Apply(cfg, s, steps[0]), steps[1..]))
  }

  ghost function Run(cfg: GatewayConfig, s: State, steps: seq<Step>): State
    requires Legal(cfg, s, steps)
    decreases |steps|
  {
    if steps == [] then s else Run(cfg, Apply(cfg, s, steps[0]), steps[1..])
  }

  lemma {:induction false} RunKeeps(cfg: GatewayConfig, s: State, steps: seq<Step>)
    requires Inv(cfg, s) && Legal(cfg, s, steps)
    ensures Inv(cfg, Run(cfg, s, steps))
    decreases |steps|
  {
    if steps != [] {
      StepKeeps(cfg, s, steps[0]);
      RunKeeps(cfg, Apply(cfg, s, steps[0]), steps[1..]);
    }
  }

  /** In every run, each session owns its worker and no two live sessions share one. */
  lemma SessionsOwnTheirWorkers(cfg: GatewayConfig, init: State, steps: seq<Step>)
    requires Init(cfg, init) && Legal(cfg, init, steps)
    ensures var s := Run(cfg, init, steps);
            && (forall sid :: sid in s.sessions ==> sid in s.pool.busy && s.pool.busy[sid] == s.sessions[sid].worker)
            && (forall sid :: sid in s.sessions ==>
                                s.sessions[sid].worker in s.pool.workers && s.sessions[sid].worker !in s.pool.idle)
            && (forall a, b :: a in s.sessions && b in s.sessions && a != b ==>
                                 s.sessions[a].worker != s.sessions[b].worker)
  {
    InitEstablishes(cfg, init);
    RunKeeps(cfg, init, steps);
  }

  /** With no open half done and the reaper not in mid-tick, the two tables differ only by cancelled opens. */
  lemma QuiescentTablesAgree(cfg: GatewayConfig, init: State, steps: seq<Step>)
    requires Init(cfg, init) && Legal(cfg, init, steps)
    ensures var s := Run(cfg, init, steps);
            s.opening == map[] && !s.reaper.Removed? ==>
              && s.pool.busy.Keys == s.sessions.Keys + s.leaked
              && (s.leaked == {} <==> s.pool.busy.Keys == s.sessions.Keys)
  {
    InitEstablishes(cfg, init);
    RunKeeps(cfg, init, steps);
  }

  /** Worker accounting and the queue bound, in every reachable state. */
  lemma PoolInEveryRun(cfg: GatewayConfig, init: State, steps: seq<Step>)
    requires Init(cfg, init) && Legal(cfg, init, steps)
    ensures var p := Run(cfg, init, steps).pool;
            && NoDuplicates(p.idle) && Injective(p.busy)
            && Elements(p.idle) <= p.workers && p.busy.Values <= p.workers && Elements(p.idle) !! p.busy.Values
            && |p.workers| == |p.idle| + |p.busy| + |Orphans(p)|
            && (|p.idle| <= cfg.pool.minIdle || |p.idle| <= cfg.pool.maxIdle)
  {
    InitEstablishes(cfg, init);
    RunKeeps(cfg, init, steps);
    Conservation(Run(cfg, init, steps).pool);
  }
}
