/**
 Whether the server serves what its members offer (pkg/apiserver/server.go, rebuild and
 resync): when a rebuild is idle, what a failed one leaves behind, when gating a resync on
 changes makes no difference, and runs in which the code does less than one might expect.
 */
module Sync {
  import opened Order
  import opened Discovery
  import opened Unions
  import opened Install
  import opened Servers

  /** What is served is the union of what the members offer now. */
  ghost predicate InSync(s: State) {
    !Conflicted(OffersOf(s.members)) && IsUnion(OffersOf(s.members), s.resources)
  }

  // What a rebuild can come to.

  /** A success is in sync; with agreement on singular names an in-sync server stays as it is. */
  lemma RebuildOutcome(s: State, s': State, ok: bool)
    requires Inv(s) && Rebuilt(s, s', ok) && KeysDistinct(OffersOf(s.members))
    ensures ok ==> InSync(s')
    ensures InSync(s) && SingularsAgree(OffersOf(s.members)) ==> ok && s' == s.(synced := OffersOf(s.members))
  {
    var offers := OffersOf(s.members);
    var u :| UnionAnswer(offers, u) && RebuiltTo(s, u, s', ok);
    if InSync(s) && SingularsAgree(offers) {
      UnionFunction(offers, u, Some(s.resources));
      if u.value == [] {
        assert s.handler == NotFoundHandler && s.stopWatches == None;
      }
    }
  }

  /** A rebuild can succeed with every union of the members' offers, if all of it has names and kinds. */
  lemma RebuildTo(s: State, v: seq<ServedResource>) returns (t: State)
    requires !Conflicted(OffersOf(s.members)) && IsUnion(OffersOf(s.members), v) && Presentable(v)
    ensures Rebuilt(s, t, true) && t.resources == v && t.members == s.members
  {
    var synced := s.(synced := OffersOf(s.members));
    if v != [] && v == s.resources {
      t := synced;
    } else if v == [] {
      t := Swapped(synced, NotFoundHandler, None).(resources := []);
    } else {
      var storage: StorageMap := map[];
      if Installable(v) {
        storage := InstallExists(v, |v|, ClientsIn(s.members), s.made);
        assert v[..|v|] == v;
      }
      t := Swapped(synced.(made := s.made + 1), Inner(s.made, v, storage), Some(s.made)).(resources := v);
    }
    assert RebuiltTo(s, Some(v), t, true);
  }

  /** And it can fail with every union that is not what is served already. */
  lemma RebuildFailing(s: State, v: seq<ServedResource>) returns (t: State)
    requires !Conflicted(OffersOf(s.members)) && IsUnion(OffersOf(s.members), v) && v != [] && v != s.resources
    ensures Rebuilt(s, t, false) && t.resources == s.resources && t.members == s.members
  {
    t := s.(made := s.made + 1, cancelled := s.cancelled + {s.made});
    assert RebuiltTo(s, Some(v), t, false);
  }

  lemma RebuildCanSucceed(s: State) returns (t: State)
    requires !Conflicted(OffersOf(s.members)) && PresentableOffers(OffersOf(s.members))
    ensures Rebuilt(s, t, true) && InSync(t) && t.members == s.members
  {
    var u := UnionExists(OffersOf(s.members));
    UnionPresentable(OffersOf(s.members), u.value);
    t := RebuildTo(s, u.value);
  }

  // When a rebuild is idle.

  /** Whatever the iteration order, rebuilding succeeds and changes nothing. */
  ghost predicate Idle(s: State) {
    forall s', ok :: Rebuilt(s, s', ok) ==> ok && s' == s.(synced := OffersOf(s.members))
  }

  /**
   Rebuilding is idle exactly if the server is in sync and its members agree on singular names:
   otherwise some iteration order replaces the handler or fails.
   */
  lemma RebuildIdleIff(s: State)
    requires Inv(s) && KeysDistinct(OffersOf(s.members))
    ensures Idle(s) <==> InSync(s) && SingularsAgree(OffersOf(s.members))
  {
    if InSync(s) && SingularsAgree(OffersOf(s.members)) {
      forall s', ok | Rebuilt(s, s', ok) ensures ok && s' == s.(synced := OffersOf(s.members)) {
        RebuildOutcome(s, s', ok);
      }
    } else {
      BusyRebuild(s);
    }
  }

  lemma BusyRebuild(s: State)
    requires Inv(s) && !(InSync(s) && SingularsAgree(OffersOf(s.members)))
    ensures !Idle(s)
  {
    var offers := OffersOf(s.members);
    if Conflicted(offers) {
      assert RebuiltTo(s, None, s, false);
      assert Rebuilt(s, s, false);
    } else {
      var u := UnionExists(offers);
      var v := u.value;
      if InSync(s) {
        v := OtherUnion(offers, s.resources);
      }
      if v == [] {
        var t := RebuildTo(s, v);
        assert Rebuilt(s, t, true);
      } else {
        var t := RebuildFailing(s, v);
        assert Rebuilt(s, t, false);
      }
    }
  }

  /**
   What disagreement on a singular name does to a server in sync: rebuilding it may replace the
   handler and end every watch, and may fail although nothing is out of sync.
   */
  lemma DisagreementDisrupts(s: State) returns (replaced: State, failed: State)
    requires Inv(s) && InSync(s) && PresentableOffers(OffersOf(s.members))
    requires !SingularsAgree(OffersOf(s.members))
    ensures Rebuilt(s, replaced, true) && InSync(replaced) && replaced.members == s.members
    ensures s.handler.Inner? && replaced.handler != s.handler && s.handler.gen in replaced.cancelled
    ensures Rebuilt(s, failed, false) && InSync(failed) && failed.members == s.members
  {
    var offers := OffersOf(s.members);
    var w := OtherUnion(offers, s.resources);
    UnionPresentable(offers, w);
    replaced := RebuildTo(s, w);
    failed := RebuildFailing(s, w);
    SomethingServed(s);
    ReplacingCancels(s, replaced, true);
  }

  lemma SomethingServed(s: State)
    requires Inv(s) && InSync(s) && !SingularsAgree(OffersOf(s.members))
    ensures s.handler.Inner?
  {
    var offers := OffersOf(s.members);
    var c, d, g, x, z :| SingularOf(offers, c, g, x) && SingularOf(offers, d, g, z) && x != z;
    FirstTag("", offers[c], g);
    assert Offered(offers, g);
    assert Has(s.resources, g);
  }

  lemma ReplacingCancels(s: State, s': State, ok: bool)
    requires Inv(s) && Rebuilt(s, s', ok) && s.handler.Inner? && s'.resources != s.resources
    ensures s'.handler != s.handler && s.handler.gen in s'.cancelled
  {
    RebuildKeepsInv(s, s', ok);
    RebuildClients(s, s', ok, GVR("", "", ""), "");
    var g := s.handler.gen;
    assert Live(s.made, s.cancelled, g);
    assert Live(s'.made, s'.cancelled, g) <==> s'.handler.Inner? && g == s'.handler.gen;
  }

  // What a failed rebuild leaves.

  /**
   A failed rebuild leaves the server out of sync, unless it was in sync and members disagree
   on a singular name.
   */
  lemma FailsInSyncIff(s: State)
    requires Inv(s) && KeysDistinct(OffersOf(s.members))
    ensures (exists f :: Rebuilt(s, f, false) && InSync(f)) <==> InSync(s) && !SingularsAgree(OffersOf(s.members))
  {
    if f :| Rebuilt(s, f, false) && InSync(f) {
      RebuildMembers(s, f, false);
      RebuildKeepsInv(s, f, false);
      RebuildOutcome(s, f, false);
    }
    if InSync(s) && !SingularsAgree(OffersOf(s.members)) {
      var w := OtherUnion(OffersOf(s.members), s.resources);
      var f := RebuildFailing(s, w);
      assert Rebuilt(s, f, false) && InSync(f);
    }
  }

  /**
   After a failed rebuild the server is in or out of sync as it was with the new members, and
   no resync that finds those unchanged retries it, although unless the members are at fault
   rebuilding could bring the server in sync.
   */
  lemma FailedRebuildIsNotRetried(s: State, s': State, answers: map<string, Answer>, s'': State, ok: bool)
    returns (t: State)
    requires Rebuilt(s, s', false)
    requires Stepped(s', Resync(answers), s'', ok) && Reresolved(s.members, answers) == s.members
    ensures ok && s'' == s' && (InSync(s'') <==> InSync(s))
    ensures !Conflicted(OffersOf(s.members)) && PresentableOffers(OffersOf(s.members)) ==>
              Rebuilt(s'', t, true) && InSync(t) && (!InSync(s) ==> t.resources != s''.resources)
  {
    RebuildMembers(s, s', false);
    var u :| UnionAnswer(OffersOf(s.members), u) && RebuiltTo(s, u, s', false);
    t := s';
    if !Conflicted(OffersOf(s.members)) && PresentableOffers(OffersOf(s.members)) {
      t := RebuildCanSucceed(s');
    }
  }

  // When gating a resync makes no difference.

  /** Same members, same served set, same live context, and both 404 or neither. */
  ghost predicate SameServed(a: State, b: State) {
    && a.members == b.members && a.resources == b.resources && a.made == b.made && a.cancelled == b.cancelled
    && (a.handler.Inner? <==> b.handler.Inner?)
  }

  lemma RebuildsAlike(s: State, u: Option<seq<ServedResource>>, a: State, b: State, ok: bool)
    requires RebuiltTo(s, u, a, ok) && RebuiltTo(s, u, b, ok)
    ensures SameServed(a, b)
  {
  }

  /** The resync with these answers as it is, and as it would be if it always rebuilt. */
  ghost predicate Variants(s: State, answers: map<string, Answer>, gated: State, ok: bool, ungated: State, ok': bool) {
    var now := Reresolved(s.members, answers);
    && Stepped(s, Resync(answers), gated, ok) && Rebuilt(s.(members := now), ungated, ok')
    && (now != s.members ==> ok == ok')  // builds that both attempt succeed or fail alike
  }

  /**
   From an in-sync state the change-gated resync does what rebuilding unconditionally would,
   whatever the iteration orders, exactly if the members then conflict or agree on singular names.
   */
  lemma GatedResyncAgreesIff(s: State, answers: map<string, Answer>)
    requires Inv(s) && InSync(s)
    requires var offers := OffersOf(Reresolved(s.members, answers)); KeysDistinct(offers) && PresentableOffers(offers)
    ensures var offers := OffersOf(Reresolved(s.members, answers));
            (forall gated, ok, ungated, ok' :: Variants(s, answers, gated, ok, ungated, ok') ==>
               ok == ok' && SameServed(gated, ungated)) <==>
            Conflicted(offers) || SingularsAgree(offers)
  {
    var offers := OffersOf(Reresolved(s.members, answers));
    if Conflicted(offers) || SingularsAgree(offers) {
      forall gated, ok, ungated, ok' | Variants(s, answers, gated, ok, ungated, ok')
        ensures ok == ok' && SameServed(gated, ungated)
      {
        GatedResyncAgrees(s, answers, gated, ok, ungated, ok');
      }
    } else {
      var gated, ungated := GatedResyncDiffers(s, answers);
      assert Variants(s, answers, gated, true, ungated, true);
    }
  }

  lemma GatedResyncAgrees(s: State, answers: map<string, Answer>, gated: State, ok: bool, ungated: State, ok': bool)
    requires Inv(s) && InSync(s) && Variants(s, answers, gated, ok, ungated, ok')
    requires var offers := OffersOf(Reresolved(s.members, answers));
             KeysDistinct(offers) && (Conflicted(offers) || SingularsAgree(offers))
    ensures ok == ok' && SameServed(gated, ungated)
  {
    hide IsUnion, Conflicted;
    var now := Reresolved(s.members, answers);
    if now == s.members {
      assert s.(members := now) == s;
      RebuildOutcome(s, ungated, ok');
    } else {
      SameRebuild(s.(members := now), gated, ungated, ok);
    }
  }

  lemma SameRebuild(s: State, a: State, b: State, ok: bool)
    requires Rebuilt(s, a, ok) && Rebuilt(s, b, ok) && KeysDistinct(OffersOf(s.members))
    requires Conflicted(OffersOf(s.members)) || SingularsAgree(OffersOf(s.members))
    ensures SameServed(a, b)
  {
    hide IsUnion;
    var u :| UnionAnswer(OffersOf(s.members), u) && RebuiltTo(s, u, a, ok);
    var w :| UnionAnswer(OffersOf(s.members), w) && RebuiltTo(s, w, b, ok);
    if !Conflicted(OffersOf(s.members)) {
      UnionFunction(OffersOf(s.members), u, w);
    }
    RebuildsAlike(s, u, a, b, ok);
  }

  lemma GatedResyncDiffers(s: State, answers: map<string, Answer>) returns (gated: State, ungated: State)
    requires Inv(s) && InSync(s)
    requires var offers := OffersOf(Reresolved(s.members, answers));
             PresentableOffers(offers) && !Conflicted(offers) && !SingularsAgree(offers)
    ensures Variants(s, answers, gated, true, ungated, true) && gated.resources != ungated.resources
  {
    hide IsUnion, SingularsAgree, PresentableOffers;
    var now := Reresolved(s.members, answers);
    var t := s.(members := now);
    gated := s;
    if now != s.members {
      gated := RebuildCanSucceed(t);
    }
    var w := OtherUnion(OffersOf(now), gated.resources);
    UnionPresentable(OffersOf(now), w);
    ungated := RebuildTo(t, w);
  }

  /** Without agreement on singular names the two still serve the same, up to those names. */
  lemma ResyncAgreesUpToSingular(s: State, answers: map<string, Answer>, gated: State, ok: bool,
                                 ungated: State, ok': bool)
    requires Inv(s) && InSync(s) && Variants(s, answers, gated, ok, ungated, ok')
    requires KeysDistinct(OffersOf(Reresolved(s.members, answers)))
    ensures gated.members == ungated.members && Unnamed(gated.resources) == Unnamed(ungated.resources)
  {
    hide Inv, IsUnion, Conflicted;
    var now := Reresolved(s.members, answers);
    if now == s.members {
      InSyncUpToSingular(s, ungated, ok');
    } else {
      RebuildsUpToSingular(s.(members := now), gated, ungated, ok);
    }
  }

  lemma InSyncUpToSingular(s: State, s': State, ok: bool)
    requires InSync(s) && Rebuilt(s, s', ok) && KeysDistinct(OffersOf(s.members))
    ensures s'.members == s.members && Unnamed(s'.resources) == Unnamed(s.resources)
  {
    var u :| UnionAnswer(OffersOf(s.members), u) && RebuiltTo(s, u, s', ok);
    UnionCanonical(OffersOf(s.members), u, Some(s.resources));
  }

  lemma RebuildsUpToSingular(s: State, a: State, b: State, ok: bool)
    requires Rebuilt(s, a, ok) && Rebuilt(s, b, ok) && KeysDistinct(OffersOf(s.members))
    ensures a.members == b.members && Unnamed(a.resources) == Unnamed(b.resources)
  {
    var u :| UnionAnswer(OffersOf(s.members), u) && RebuiltTo(s, u, a, ok);
    var w :| UnionAnswer(OffersOf(s.members), w) && RebuiltTo(s, w, b, ok);
    UnionCanonical(OffersOf(s.members), u, w);
  }

  /** In every state of every run the sort key tells the members' offers apart, unless a version has a comma. */
  lemma RunKeysDistinct(states: seq<State>, ops: seq<Op>, oks: seq<bool>, k: nat)
    requires IsRun(states, ops, oks) && k < |states|
    requires forall c, r :: c in states[k].members && r in states[k].members[c].resources ==> ',' !in r.gvr.version
    ensures KeysDistinct(OffersOf(states[k].members))
  {
    RunKeepsInv(states, ops, oks, k, k);
    KeysTellApart(OffersOf(states[k].members));
  }

  // Setting a cluster.

  /**
   Right after a cluster was set successfully it backs exactly what its discovery lists and
   its selectors take.  It does so through the client it was set with if and only if the
   served set changed or that client served it before.  When the members agree on singular
   names, the served set changes exactly if it is not the union with the new member already:
   otherwise the handler stays, and so do the clients it was built with.
   */
  lemma SetClusterIsExact(s: State, op: Op, s': State, g: GVR)
    requires Inv(s) && op.SetCluster? && Stepped(s, op, s', true)
    ensures ClientIn(s', g, op.name).Some? <==> Gives(Some(Source(op.answer.value, op.selectors)), g)
    ensures ClientIn(s', g, op.name).Some? ==>
              (ClientIn(s', g, op.name) == Some(op.client) <==>
               s'.resources != s.resources || ClientIn(s, g, op.name) == Some(op.client))
    ensures var offers := OffersOf(MembersAfter(s.members, op));
            KeysDistinct(offers) && SingularsAgree(offers) && ClientIn(s', g, op.name).Some? ==>
              (ClientIn(s', g, op.name) == Some(op.client) <==>
               !IsUnion(offers, s.resources) || ClientIn(s, g, op.name) == Some(op.client))
  {
    hide Rebuilt, IsUnion;
    StepKeepsInv(s, op, s', true);
    BackedIffSynced(s', g, op.name);
    OffersGiven(s'.members, op.name, Some(Source(op.answer.value, op.selectors)), g);
    StepClients(s, op, s', true, g, op.name);
    if KeysDistinct(OffersOf(s'.members)) && SingularsAgree(OffersOf(s'.members)) {
      MembersAfterInv(s, op);
      RebuildOutcome(s.(members := MembersAfter(s.members, op)), s', true);
    }
  }

  // Runs.

  lemma Extended(states: seq<State>, ops: seq<Op>, oks: seq<bool>, op: Op, s: State, ok: bool)
    returns (states': seq<State>, ops': seq<Op>, oks': seq<bool>)
    requires IsRun(states, ops, oks) && Stepped(states[|ops|], op, s, ok)
    ensures IsRun(states', ops', oks')
    ensures states' == states + [s] && ops' == ops + [op] && oks' == oks + [ok]
  {
    hide Stepped;
    states', ops', oks' := states + [s], ops + [op], oks + [ok];
    forall i | 0 <= i < |ops'| ensures Stepped(states'[i], ops'[i], states'[i + 1], oks'[i]) {
      if i < |ops| {
        assert Stepped(states[i], ops[i], states[i + 1], oks[i]);
      }
    }
  }

  /** Unless the members are then at fault, setting a cluster that resolves can succeed. */
  lemma SetSucceeds(s: State, op: Op) returns (t: State)
    requires Inv(s) && op.SetCluster? && Resolve(op.answer, op.selectors).Some?
    requires var offers := OffersOf(MembersAfter(s.members, op)); !Conflicted(offers) && PresentableOffers(offers)
    ensures Stepped(s, op, t, true) && Inv(t) && InSync(t) && t.members == MembersAfter(s.members, op)
  {
    t := RebuildCanSucceed(s.(members := MembersAfter(s.members, op)));
    StepKeepsInv(s, op, t, true);
  }

  /** The offers of members that list one resource each, the same for all but for its singular name. */
  ghost predicate OneEach(offers: Offers, r: ServedResource) {
    forall c :: c in offers ==> |offers[c]| == 1 && offers[c][0].(singular := "") == r.(singular := "")
  }

  lemma OneEachFits(offers: Offers, r: ServedResource, c: string)
    requires OneEach(offers, r) && c in offers && Presentable([r])
    ensures !Conflicted(offers) && PresentableOffers(offers) && forall v :: IsUnion(offers, v) ==> v != []
  {
    assert r in [r];
    forall c, x | c in offers && x in offers[c] ensures x.(singular := "") == r.(singular := "") {
      assert x == offers[c][0];
    }
    assert offers[c][0] in offers[c];
    assert Has(offers[c], r.gvr);
    assert Offered(offers, r.gvr);
    forall v | IsUnion(offers, v) ensures v != [] {
      assert Has(v, r.gvr);
    }
  }

  lemma FirstMember(op: Op, r: ServedResource)
    requires op.SetCluster? && Resolve(op.answer, op.selectors) == Some([r])
    ensures MembersAfter(EMPTY.members, op) == map[op.name := Member(op.client, op.selectors, [r])]
    ensures OffersOf(MembersAfter(EMPTY.members, op)) == map[op.name := [r]]
  {
  }

  /**
   A server stays out of sync: the first cluster is registered while the inner server cannot be
   built.  The next resync gets the same answer and leaves it at that, and the proxy goes on
   serving 404 although it could serve the cluster's resources.
   */
  lemma OutOfSyncRun() returns (states: seq<State>, ops: seq<Op>, oks: seq<bool>, t: State)
    ensures IsRun(states, ops, oks) && oks == [false, true]
    ensures ops[0].SetCluster? && ops[1] == Resync(map[ops[0].name := ops[0].answer])
    ensures !InSync(states[1]) && states[2] == states[1] && states[2].handler == NotFoundHandler
    ensures Rebuilt(states[2], t, true) && t.handler.Inner?
  {
    hide Stepped, Rebuilt, InSync;
    var lists, selectors, pods := Pods("pod");
    var op := Op.SetCluster("a", Client(0), Some(lists), selectors);
    var failed := FirstBuildFails(op, pods);
    states, ops, oks := Extended([EMPTY], [], [], op, failed, false);
    states, ops, oks := Extended(states, ops, oks, Resync(map[op.name := op.answer]), failed, true);
    t := LaterRebuild(failed, pods, op.name);
  }

  lemma FirstBuildFails(op: Op, r: ServedResource) returns (failed: State)
    requires op.SetCluster? && Resolve(op.answer, op.selectors) == Some([r]) && Presentable([r])
    ensures Stepped(EMPTY, op, failed, false) && Stepped(failed, Resync(map[op.name := op.answer]), failed, true)
    ensures op.name in failed.members && OneEach(OffersOf(failed.members), r)
    ensures failed.resources == [] && failed.handler == NotFoundHandler
  {
    FirstMember(op, r);
    var s := EMPTY.(members := MembersAfter(EMPTY.members, op));
    OneEachFits(OffersOf(s.members), r, op.name);
    var u := UnionExists(OffersOf(s.members));
    failed := s.(made := 1, cancelled := {0});
    assert RebuiltTo(s, u, failed, false);
    assert Reresolved(failed.members, map[op.name := op.answer]) == failed.members;
  }

  lemma LaterRebuild(s: State, r: ServedResource, c: string) returns (t: State)
    requires OneEach(OffersOf(s.members), r) && c in s.members && s.resources == [] && Presentable([r])
    ensures !InSync(s) && Rebuilt(s, t, true) && t.handler.Inner?
  {
    OneEachFits(OffersOf(s.members), r, c);
    t := RebuildCanSucceed(s);
    RebuildHandler(s, t);
  }

  lemma RebuildHandler(s: State, t: State)
    requires Rebuilt(s, t, true) && s.resources == [] && t.resources != []
    ensures t.handler.Inner?
  {
  }

  /**
   A stale client serves on: a cluster is set, and set again with a new client and the same
   discovery.  Both calls succeed, the member has the new client, and the old one serves.
   */
  lemma StaleClientRun() returns (states: seq<State>, ops: seq<Op>, oks: seq<bool>, g: GVR)
    ensures IsRun(states, ops, oks) && oks == [true, true]
    ensures ops[0].SetCluster? && ops[1] == ops[0].(client := Client(1)) && ops[0].client == Client(0)
    ensures ops[0].name in states[2].members && states[2].members[ops[0].name].client == Client(1)
    ensures ClientIn(states[2], g, ops[0].name) == Some(Client(0))
  {
    hide Stepped, Rebuilt, Inv, InSync;
    var lists, selectors, pods := Pods("pod");
    var op := Op.SetCluster("a", Client(0), Some(lists), selectors);
    var s1 := FirstServed(op, pods);
    var s2 := SetAgain(s1, op, Client(1));
    states, ops, oks := Extended([EMPTY], [], [], op, s1, true);
    states, ops, oks := Extended(states, ops, oks, op.(client := Client(1)), s2, true);
    g := pods.gvr;
  }

  lemma FirstServed(op: Op, r: ServedResource) returns (s: State)
    requires op.SetCluster? && Resolve(op.answer, op.selectors) == Some([r]) && Presentable([r])
    ensures Stepped(EMPTY, op, s, true) && Inv(s) && InSync(s) && s.handler.Inner? && s.resources != []
    ensures s.members == map[op.name := Member(op.client, op.selectors, [r])]
    ensures ClientIn(s, r.gvr, op.name) == Some(op.client)
  {
    hide IsUnion, Rebuilt;
    EmptyInv();
    FirstMember(op, r);
    OneEachFits(map[op.name := [r]], r, op.name);
    s := SetSucceeds(EMPTY, op);
    StepKeepsInv(EMPTY, op, s, true);
    BackedIffSynced(s, r.gvr, op.name);
    assert r in s.synced[op.name];
    StepClients(EMPTY, op, s, true, r.gvr, op.name);
  }

  /** Setting the cluster again with another client, with nothing else changed. */
  lemma SetAgain(s: State, op: Op, client: Client) returns (t: State)
    requires Inv(s) && InSync(s) && s.resources != [] && op.SetCluster? && Resolve(op.answer, op.selectors).Some?
    requires op.name in s.members && s.members == MembersAfter(s.members, op)
    ensures Stepped(s, op.(client := client), t, true) && t.handler == s.handler
    ensures op.name in t.members && t.members[op.name].client == client
  {
    var again := op.(client := client);
    var now := MembersAfter(s.members, again);
    assert OffersOf(now) == OffersOf(s.members);
    t := s.(members := now, synced := OffersOf(now));
    assert RebuiltTo(s.(members := now), Some(s.resources), t, true);
  }

  /**
   A watch is ended for nothing: two clusters serve one resource under different singular names.
   Setting one of them again, with nothing changed at all, replaces the handler and cancels the
   generation.
   */
  lemma DisruptedRun() returns (states: seq<State>, ops: seq<Op>, oks: seq<bool>)
    ensures IsRun(states, ops, oks) && oks == [true, true, true] && ops[1].SetCluster? && ops[2] == ops[1]
    ensures states[3].members == states[2].members && states[2].handler.Inner?
    ensures states[3].handler != states[2].handler && states[2].handler.gen in states[3].cancelled
  {
    hide Stepped, Rebuilt, InSync, Inv, SingularsAgree, PresentableOffers;
    var lists, pods, lists', unnamed, selectors := PodsTwice();
    var a := Op.SetCluster("a", Client(0), Some(lists), selectors);
    var b := Op.SetCluster("b", Client(1), Some(lists'), selectors);
    var s1 := FirstServed(a, pods);
    var s2 := SecondServed(s1, a.name, pods, b, unnamed);
    var s3 := SetDisrupts(s2, b);
    states, ops, oks := Extended([EMPTY], [], [], a, s1, true);
    states, ops, oks := Extended(states, ops, oks, b, s2, true);
    states, ops, oks := Extended(states, ops, oks, b, s3, true);
  }

  lemma SecondServed(s: State, c: string, r: ServedResource, op: Op, q: ServedResource) returns (t: State)
    requires Inv(s) && OffersOf(s.members) == map[c := [r]] && op.SetCluster? && op.name != c && Presentable([r])
    requires Resolve(op.answer, op.selectors) == Some([q]) && q.(singular := "") == r.(singular := "")
    ensures Stepped(s, op, t, true) && Inv(t) && InSync(t) && t.members == MembersAfter(s.members, op)
    ensures PresentableOffers(OffersOf(t.members))
    ensures q.singular != r.singular ==> !SingularsAgree(OffersOf(t.members))
  {
    hide IsUnion, Rebuilt, Inv, Conflicted, SingularsAgree, PresentableOffers, Stepped, InSync;
    var offers := OffersOf(MembersAfter(s.members, op));
    assert offers == map[c := [r], op.name := [q]];
    OneEachFits(offers, r, c);
    t := SetSucceeds(s, op);
    if q.singular != r.singular {
      SingularsDiffer(offers, c, r, op.name, q);
    }
  }

  lemma SingularsDiffer(offers: Offers, c: string, r: ServedResource, d: string, q: ServedResource)
    requires c in offers && d in offers && offers[c] == [r] && offers[d] == [q]
    requires q.gvr == r.gvr && q.singular != r.singular
    ensures !SingularsAgree(offers)
  {
    assert FirstOf([r], r.gvr) == Some(r) && FirstOf([q], r.gvr) == Some(q);
    assert SingularOf(offers, c, r.gvr, r.singular) && SingularOf(offers, d, r.gvr, q.singular);
  }

  lemma SetDisrupts(s: State, op: Op) returns (t: State)
    requires Inv(s) && InSync(s) && op.SetCluster? && Resolve(op.answer, op.selectors).Some?
    requires s.members == MembersAfter(s.members, op)
    requires PresentableOffers(OffersOf(s.members)) && !SingularsAgree(OffersOf(s.members))
    ensures Stepped(s, op, t, true) && t.members == s.members && s.handler.Inner?
    ensures t.handler != s.handler && s.handler.gen in t.cancelled
  {
    var failed;
    t, failed := DisagreementDisrupts(s);
    assert s.(members := MembersAfter(s.members, op)) == s;
  }

  /** Two discovery answers that list pods under different singular names. */
  lemma PodsTwice()
    returns (lists: seq<APIResourceList>, pods: ServedResource, lists': seq<APIResourceList>, pods': ServedResource,
             selectors: seq<APISelector>)
    ensures Resolved(lists, selectors) == Some([pods]) && Presentable([pods])
    ensures Resolved(lists', selectors) == Some([pods'])
    ensures pods'.(singular := "") == pods.(singular := "") && pods'.singular != pods.singular
  {
    hide Resolved;
    lists, selectors, pods := Pods("pod");
    lists', selectors, pods' := Pods("");
  }

  /** A discovery answer that lists pods under this singular name, and a selector that takes everything. */
  lemma Pods(singular: string) returns (lists: seq<APIResourceList>, selectors: seq<APISelector>, pods: ServedResource)
    ensures selectors == [APISelector("*", [], [])] && Resolved(lists, selectors) == Some([pods]) && Presentable([pods])
    ensures pods == ServedResource(GVR("", "v1", "pods"), GVK("", "v1", "Pod"), true, singular, false, [])
  {
    hide Resolved;
    var r := APIResource("pods", singular, "Pod", true);
    var list := APIResourceList("v1", [r]);
    lists, selectors := [list], [APISelector("*", [], [])];
    assert IndexOf(list.groupVersion, '/') == 2;
    assert |r.name| == 4 && |r.name + "/status"| == 11;
    pods := OneResolved(list, ("", list.groupVersion), selectors);
  }

  lemma {:induction false} OneResolved(list: APIResourceList, gv: (string, string), selectors: seq<APISelector>)
    returns (r: ServedResource)
    requires ParseGroupVersion(list.groupVersion) == Some(gv) && |list.resources| == 1 && IsPlain(list.resources[0])
    requires |selectors| == 1 && selectors[0].group == "*" && selectors[0].versions == selectors[0].resources == []
    ensures r == Served(gv, list.resources, list.resources[0]) && Resolved([list], selectors) == Some([r])
  {
    hide ParseGroupVersion, HasStatus, FromLists, Filter;
    r := OneListed(list, gv);
    OneKept(r, selectors);
  }

  lemma {:induction false} OneListed(list: APIResourceList, gv: (string, string)) returns (r: ServedResource)
    requires ParseGroupVersion(list.groupVersion) == Some(gv) && |list.resources| == 1 && IsPlain(list.resources[0])
    ensures r == Served(gv, list.resources, list.resources[0]) && FromLists([list]) == Some([r])
  {
    hide ParseGroupVersion, HasStatus;
    r := Served(gv, list.resources, list.resources[0]);
    assert FromList(gv, list.resources, 0) == [];
    assert FromList(gv, list.resources, 1) == [r];
    assert [list][..0] == [];
    assert FromLists([]) == Some([]);
  }

  lemma {:induction false} OneKept(r: ServedResource, selectors: seq<APISelector>)
    requires |selectors| == 1 && selectors[0].group == "*" && selectors[0].versions == selectors[0].resources == []
    ensures Filter([r], selectors) == [r]
  {
    assert SelectedBy(selectors[0], r.gvr);
    assert Matches(r.gvr, selectors);
    assert [r][..0] == [];
    assert Filter([], selectors) == [];
  }
}
