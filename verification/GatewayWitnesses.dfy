/** Runs from an empty gateway into the states that the limits of its guarantees are about. */
module GatewayWitnesses {
  import opened Wrappers
  import opened WorkerIds
  import opened WorkerPools
  import opened Gateway
  import opened GatewayRuns

  /** The gateway started while no worker could be spawned. */
  function StartPool(cfg: Config): Pool {
    if cfg.prewarm then Prewarm(EMPTY, cfg, {}) else EMPTY
  }

  function StartState(cfg: GatewayConfig): State {
    State(map[], StartPool(cfg.pool), map[], map[], Sleeping, 0, {}, {}, [])
  }

  lemma StartIsInit(cfg: GatewayConfig)
    ensures Init(cfg, StartState(cfg)) && StartPool(cfg.pool).idle == []
  {
    var spawnable: set<nat> := {};
    var p := Prewarm(EMPTY, cfg.pool, spawnable);
    assert Spawn(EMPTY, spawnable) == (EMPTY.(nextId := 1), None);
    assert p.idle == [];
    assert StartState(cfg).pool == if cfg.pool.prewarm then p else EMPTY;
  }

  function Opened(s: State, w: string): State {
    s.(pool := s.pool.(nextId := s.pool.nextId + 1, busy := map["a" := w], workers := s.pool.workers + {w}),
       issued := {"a"}, sessions := map["a" := Session(w, 0, 0)])
  }

  lemma OpenFirst(cfg: GatewayConfig, s: State) returns (steps: seq<Step>)
    requires s == StartState(cfg) && Init(cfg, s)
    ensures Legal(cfg, s, steps) && StartsNothing(steps, "a")
    ensures Run(cfg, s, steps) == Opened(s, WorkerId(s.pool.nextId + 1))
  {
    var n := s.pool.nextId + 1;
    assert s.pool.busy == map[];
    steps := [];
    RunOneMore(cfg, s, steps, OpenAcquire("a", false, {n}, true));
    steps := steps + [OpenAcquire("a", false, {n}, true)];
    RunOneMore(cfg, s, steps, OpenInsert("a"));
    steps := steps + [OpenInsert("a")];
  }

  lemma KeyThenExpiry(cfg: GatewayConfig, s: State, w: string) returns (steps: seq<Step>)
    requires s.sessions == map["a" := Session(w, 0, 0)] && s.handlers == map[] && s.now == 0
    ensures Legal(cfg, s, steps)
    ensures Run(cfg, s, steps)
            == s.(sessions := map["a" := Session(w, 1, 0)], handlers := map[0 := Using("a", w, Key(1))],
                  now := cfg.ttl + 1)
  {
    steps := [];
    RunOneMore(cfg, s, steps, KeyCheck(0, "a", 1));
    steps := steps + [KeyCheck(0, "a", 1)];
    RunOneMore(cfg, s, steps, KeyStore(0));
    steps := steps + [KeyStore(0)];
    RunOneMore(cfg, s, steps, Tick(cfg.ttl + 1));
    steps := steps + [Tick(cfg.ttl + 1)];
  }

  /** A key of session "a" waits for its worker, and the session has expired meanwhile. */
  ghost predicate HeldUp(cfg: GatewayConfig, s: State) {
    && Inv(cfg, s) && s.reaper == Sleeping && s.pool.idle == [] && "b" !in s.issued
    && "a" in s.sessions && 0 in s.handlers && 1 !in s.handlers
    && s.handlers[0] == Using("a", s.sessions["a"].worker, Key(1))
    && IsScan(["a"], s.sessions, s.now, cfg.ttl)
  }

  lemma AKeyIsHeldUp(cfg: GatewayConfig) returns (steps: seq<Step>)
    ensures Init(cfg, StartState(cfg)) && Legal(cfg, StartState(cfg), steps)
    ensures HeldUp(cfg, Run(cfg, StartState(cfg), steps))
  {
    var init := StartState(cfg);
    StartIsInit(cfg);
    InitEstablishes(cfg, init);
    var first := OpenFirst(cfg, init);
    var keyed := KeyThenExpiry(cfg, Run(cfg, init, first), WorkerId(init.pool.nextId + 1));
    RunAppend(cfg, init, first, keyed);
    steps := first + keyed;
    RunKeeps(cfg, init, steps);
  }

  /** The reaper lists the expired session, a query touches it, and the reaper removes it. */
  lemma ATouchIsLost(cfg: GatewayConfig) returns (before: seq<Step>, after: seq<Step>)
    ensures Init(cfg, StartState(cfg))
    ensures Legal(cfg, StartState(cfg), before) && Legal(cfg, StartState(cfg), before + after)
    ensures var (s, t) := (Run(cfg, StartState(cfg), before), Run(cfg, StartState(cfg), before + after));
            && "a" in s.sessions && s.sessions["a"].lastActive == s.now && !Expired(s.sessions["a"], s.now, cfg.ttl)
            && after == [ReapRemove] && t.now == s.now && "a" !in t.sessions
  {
    var init := StartState(cfg);
    var held := AKeyIsHeldUp(cfg);
    var s := Run(cfg, init, held);
    var scan := ReapScan(s.now, ["a"]);
    RunOneMore(cfg, init, held, scan);
    StepKeeps(cfg, s, scan);
    var scanned := Apply(cfg, s, scan);
    var touch := Touch(1, "a", 0, Query);
    RunOneMore(cfg, init, held + [scan], touch);
    before, after := held + [scan] + [touch], [ReapRemove];
    RunOneMore(cfg, init, before, ReapRemove);
  }
}
