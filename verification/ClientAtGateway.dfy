/** The C++ client in front of the v1 gateway: its numbers, as far as they arrive, against the host's check. */
module ClientAtGateway {
  import opened Gateway
  import opened GatewayRuns
  import opened GatewayWitnesses
  import GrpcClients
  import StubWorkers

  /** The numbered requests for `sid` in a run are some of the client's, in the order it sent them. */
  ghost predicate Delivers(steps: seq<Step>, sid: string, sent: seq<nat>)
    decreases |steps|
  {
    steps != [] ==>
      if Numbered(steps[0], sid)
      then exists k :: 0 <= k < |sent| && sent[k] == steps[0].seqNo && Delivers(steps[1..], sid, Behind(sent, k))
      else Delivers(steps[1..], sid, sent)
  }

  function Behind(sent: seq<nat>, k: nat): seq<nat>
    requires k < |sent|
  {
    sent[k + 1..]
  }

  /** No key of `sid` is checked while another one is in flight. */
  ghost predicate KeysOneAtATime(cfg: GatewayConfig, s: State, steps: seq<Step>, sid: string)
    requires Legal(cfg, s, steps)
    decreases |steps|
  {
    steps != [] ==> KeyAlone(s, steps[0], sid) && KeysOneAtATime(cfg, Apply(cfg, s, steps[0]), steps[1..], sid)
  }

  lemma BehindGrows(sent: seq<nat>, k: nat)
    requires GrpcClients.Increasing(sent) && k < |sent|
    ensures GrpcClients.Increasing(Behind(sent, k)) && Above(Behind(sent, k), sent[k])
    ensures forall n :: n in Behind(sent, k) ==> n in sent
  {
  }

  ghost predicate Above(sent: seq<nat>, top: nat) {
    forall k :: 0 <= k < |sent| ==> sent[k] > top
  }

  ghost predicate Within(top: nat, sent: seq<nat>, floor: nat) {
    top == floor || top in sent
  }

  /** Whatever part of growing numbers arrives, the host sees growing numbers, and never one the client has not sent. */
  lemma {:induction false} DeliveryGrows(
      cfg: GatewayConfig, s: State, steps: seq<Step>, sid: string, top: nat, sent: seq<nat>)
    requires Legal(cfg, s, steps) && Delivers(steps, sid, sent)
    requires GrpcClients.Increasing(sent) && Above(sent, top)
    ensures GrowingRun(cfg, s, steps, sid, top)
    ensures Within(TopOf(steps, sid, top), sent, top)
    decreases |steps|
  {
    if steps != [] {
      var next := Apply(cfg, s, steps[0]);
      if Numbered(steps[0], sid) {
        var k :| 0 <= k < |sent| && sent[k] == steps[0].seqNo && Delivers(steps[1..], sid, Behind(sent, k));
        BehindGrows(sent, k);
        DeliveryGrows(cfg, next, steps[1..], sid, sent[k], Behind(sent, k));
      } else {
        DeliveryGrows(cfg, next, steps[1..], sid, top, sent);
      }
    }
  }

  lemma {:induction false} GrowingAndAlone(cfg: GatewayConfig, s: State, steps: seq<Step>, sid: string, top: nat)
    requires Legal(cfg, s, steps) && GrowingRun(cfg, s, steps, sid, top) && KeysOneAtATime(cfg, s, steps, sid)
    ensures ClientRun(cfg, s, steps, sid, top)
    decreases |steps|
  {
    if steps != [] {
      GrowingAndAlone(cfg, Apply(cfg, s, steps[0]), steps[1..], sid, NextTop(steps[0], sid, top));
    }
  }

  /**
   * Client and host together. For every sequence of client calls and every interleaving on the host, with any of the
   * client's requests or replies lost: `last_seq` stays at or below the client's counter and none of its keys is
   * rejected. If its keys are handled one at a time, they are also applied in the order they were sent.
   */
  lemma ClientIsNeverRejected(
      cfg: GatewayConfig, init: State, steps: seq<Step>, sid: string, w: StubWorkers.Stub, calls: seq<GrpcClients.Call>)
    requires Init(cfg, init) && Legal(cfg, init, steps) && GrpcClients.NoHints(calls)
    requires Delivers(steps, sid, GrpcClients.Run(GrpcClients.NEW_CLIENT, w, calls).0.sent)
    ensures var (t, c) := (Run(cfg, init, steps), GrpcClients.Run(GrpcClients.NEW_CLIENT, w, calls).0);
            && (sid in t.sessions ==> t.sessions[sid].lastSeq <= c.seqNo)
            && NoRejection(t, sid)
            && (KeysOneAtATime(cfg, init, steps, sid) ==> AppliedIncreasing(t, sid))
  {
    GrpcClients.NumbersAlwaysGrow(GrpcClients.NEW_CLIENT, w, calls);
    var c := GrpcClients.Run(GrpcClients.NEW_CLIENT, w, calls).0;
    DeliveryGrows(cfg, init, steps, sid, 0, c.sent);
    GrowingNumbersAreNeverRejected(cfg, init, steps, sid, 0);
    if KeysOneAtATime(cfg, init, steps, sid) {
      GrowingAndAlone(cfg, init, steps, sid, 0);
      ClientInvInitially(cfg, init, sid);
      DisciplinedKeysStayInOrder(cfg, init, steps, sid, 0);
    }
  }

  // ----- for the order, growing numbers alone are not enough -----

  lemma {:induction false} QuietDelivers(front: seq<Step>, rest: seq<Step>, sid: string, sent: seq<nat>)
    requires StartsNothing(front, sid) && Delivers(rest, sid, sent)
    ensures Delivers(front + rest, sid, sent)
    decreases |front|
  {
    if front == [] {
      assert front + rest == rest;
    } else {
      assert (front + rest)[1..] == front[1..] + rest;
      assert !Starts(front[0], sid);
      assert forall i :: 0 <= i < |front[1..]| ==> front[1..][i] == front[i + 1];
      QuietDelivers(front[1..], rest, sid, sent);
    }
  }

  lemma TwoKeysDelivered(h: nat, g: nat, sid: string, rest: seq<Step>)
    requires StartsNothing(rest, sid)
    ensures Delivers([KeyCheck(h, sid, 1), KeyCheck(g, sid, 2)] + rest, sid, [1, 2])
  {
    var (steps, sent) := ([KeyCheck(h, sid, 1), KeyCheck(g, sid, 2)] + rest, [1, 2]);
    assert rest + [] == rest;
    QuietDelivers(rest, [], sid, []);
    assert steps[1..] == [KeyCheck(g, sid, 2)] + rest && steps[1..][1..] == rest;
    assert Behind(sent, 0) == [2] && Behind([2], 0) == [];
    assert Delivers(steps[1..], sid, [2]) by { assert [2][0] == steps[1..][0].seqNo; }
    assert sent[0] == steps[0].seqNo;
  }

  /** From an empty gateway: keys 1 and 2 are checked in that order and applied in the other. */
  lemma OverlapBreaksTheOrder(cfg: GatewayConfig) returns (steps: seq<Step>)
    ensures Init(cfg, StartState(cfg)) && Legal(cfg, StartState(cfg), steps) && Delivers(steps, "a", [1, 2])
    ensures Run(cfg, StartState(cfg), steps).applied == [("a", 2), ("a", 1)]
  {
    var init := StartState(cfg);
    StartIsInit(cfg);
    InitEstablishes(cfg, init);
    var first := OpenFirst(cfg, init);
    RunKeeps(cfg, init, first);
    var ready := Run(cfg, init, first);
    StepKeeps(cfg, ready, KeyCheck(0, "a", 1));
    var s := Apply(cfg, ready, KeyCheck(0, "a", 1));
    assert KeyInFlight(s, 0, "a");
    var rest := OverlappingKeysRegress(cfg, s, "a", 0, 1, 2);
    var both := [KeyCheck(0, "a", 1), KeyCheck(1, "a", 2)];
    RunOneMore(cfg, ready, [], KeyCheck(0, "a", 1));
    RunOneMore(cfg, ready, [KeyCheck(0, "a", 1)], KeyCheck(1, "a", 2));
    assert [] + [KeyCheck(0, "a", 1)] + [KeyCheck(1, "a", 2)] == both;
    RunAppend(cfg, ready, both, rest);
    RunAppend(cfg, init, first, both + rest);
    TwoKeysDelivered(0, 1, "a", rest);
    QuietDelivers(first, both + rest, "a", [1, 2]);
    steps := first + (both + rest);
  }
}
