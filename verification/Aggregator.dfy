/**
 The reconciler that brings the server's membership in line with the spec
 (pkg/controllers/api-aggregator/aggregatedapi/reconciler.go).  Passes are serialized; the
 server's own resync may run between any two calls of a pass.
 */
module Aggregator {
  import opened Order
  import opened Discovery
  import opened Unions
  import opened Install
  import opened Servers
  import opened Sync

  datatype SpecCluster = SpecCluster(name: string, selectors: seq<APISelector>)

  /** The clients made from a cluster's kubeconfig Secret, and what its discovery answers. */
  datatype Reach = Reach(client: Client, answer: Answer)

  /** What is known of the surroundings of a pass. */
  datatype World =
    | Any
      // every cluster is reachable and answers as given whenever it answers a resync;
      // with `builds` an inner server can be built from every storage map
    | Stable(answers: map<string, seq<APIResourceList>>, builds: bool)

  function Names(spec: seq<SpecCluster>): set<string> {
    set i | 0 <= i < |spec| :: spec[i].name
  }

  /** These resync answers are ones the world gives. */
  predicate Truthful(w: World, answers: map<string, Answer>) {
    w.Stable? ==> forall c :: c in answers && answers[c].Some? ==> c in w.answers && answers[c] == Some(w.answers[c])
  }

  /** The world lets spec cluster c be reached like this. */
  predicate Reachable(w: World, c: string, reach: Option<Reach>) {
    w.Stable? ==> reach.Some? && c in w.answers && reach.value.answer == Some(w.answers[c])
  }

  predicate Builds(w: World) {
    w.Stable? && w.builds
  }

  /** The members conflict, or one of them offers something without a name or a kind. */
  ghost predicate Faulty(members: map<string, Member>) {
    Conflicted(OffersOf(members)) || !PresentableOffers(OffersOf(members))
  }

  ghost predicate Allowed(w: World, op: Op, s': State, ok: bool) {
    && (op.SetCluster? && w.Stable? ==> op.name in w.answers && op.answer == Some(w.answers[op.name]))
    && (op.Resync? ==> Truthful(w, op.answers))
    && (Builds(w) && !ok && (op.SetCluster? ==> Resolve(op.answer, op.selectors).Some?) ==> Faulty(s'.members))
  }

  ghost predicate Goes(w: World, s: State, op: Op, s': State, ok: bool) {
    Stepped(s, op, s', ok) && Allowed(w, op, s', ok)
  }

  /** A run of resyncs. */
  ghost predicate Resyncs(w: World, path: seq<State>, answers: seq<map<string, Answer>>, oks: seq<bool>) {
    && |path| == |answers| + 1 && |oks| == |answers|
    && forall i :: 0 <= i < |answers| ==> Goes(w, path[i], Resync(answers[i]), path[i + 1], oks[i])
  }

  ghost predicate Drifted(w: World, s: State, s': State) {
    exists path, answers, oks :: Resyncs(w, path, answers, oks) && path[0] == s && path[|answers|] == s'
  }

  /** registerCluster: the cluster may be out of reach, then the server is not called. */
  ghost predicate Registered(w: World, s: State, cluster: SpecCluster, reach: Option<Reach>, s': State, ok: bool) {
    exists m :: Drifted(w, s, m) &&
      match reach
      case None => !w.Stable? && !ok && s' == m
      case Some(r) => Goes(w, m, SetCluster(cluster.name, r.client, r.answer, cluster.selectors), s', ok)
  }

  /** The states between the calls for each spec cluster in turn. */
  ghost predicate RegisteredAll(w: World, path: seq<State>, spec: seq<SpecCluster>, reaches: seq<Option<Reach>>,
                                oks: seq<bool>)
  {
    && |path| == |spec| + 1 && |reaches| == |spec| == |oks|
    && forall i :: 0 <= i < |spec| ==> Registered(w, path[i], spec[i], reaches[i], path[i + 1], oks[i])
  }

  ghost predicate Removed(w: World, s: State, name: string, s': State, ok: bool) {
    exists m :: Drifted(w, s, m) && Goes(w, m, RemoveCluster(name), s', ok)
  }

  ghost predicate RemovedAll(w: World, path: seq<State>, names: seq<string>, oks: seq<bool>) {
    && |path| == |names| + 1 && |oks| == |names|
    && forall i :: 0 <= i < |names| ==> Removed(w, path[i], names[i], path[i + 1], oks[i])
  }

  /** The names to remove: those registered that the spec does not have. */
  ghost predicate Stale(s: State, spec: seq<SpecCluster>, stale: seq<string>) {
    forall c :: c in stale <==> c in s.members && c !in Names(spec)
  }

  /** What happened in a pass: its registrations, then its removals. */
  datatype Trace = Trace(registering: seq<State>, registered: seq<bool>, stale: seq<string>, removing: seq<State>,
                         removed: seq<bool>)

  predicate AllTrue(oks: seq<bool>) {
    forall i :: 0 <= i < |oks| ==> oks[i]
  }

  /** One pass, from its first call on the server to its last; `ready` is the Ready condition it reports. */
  ghost predicate Pass(w: World, s: State, spec: seq<SpecCluster>, reaches: seq<Option<Reach>>, t: Trace, s': State,
                       ready: bool)
  {
    && RegisteredAll(w, t.registering, spec, reaches, t.registered) && t.registering[0] == s
    && RemovedAll(w, t.removing, t.stale, t.removed)
    && t.removing[0] == t.registering[|spec|] && t.removing[|t.stale|] == s'
    && Stale(t.removing[0], spec, t.stale)
    && (ready <==> AllTrue(t.registered) && AllTrue(t.removed))
  }

  // What every call keeps.

  /** The server's invariant, and that a server without members serves nothing. */
  ghost predicate Sound(s: State) {
    Inv(s) && (s.members == map[] ==> s.synced == map[])
  }

  lemma StepSound(s: State, op: Op, s': State, ok: bool)
    requires Sound(s) && Stepped(s, op, s', ok)
    ensures Sound(s')
    ensures s'.members.Keys == match op
                               case SetCluster(name, _, answer, selectors) =>
                                 if Resolve(answer, selectors).Some? then s.members.Keys + {name} else s.members.Keys
                               case RemoveCluster(name) => s.members.Keys - {name}
                               case Resync(_) => s.members.Keys
    ensures ok && !op.Resync? ==> InSync(s')
  {
    hide Rebuilt, Inv, InSync;
    StepKeepsInv(s, op, s', ok);
    if Rebuilds(s, op) {
      MembersAfterInv(s, op);
      Rebuilding(s.(members := s'.members), s', ok);
    }
  }

  lemma EmptyUnion(v: seq<ServedResource>)
    requires IsUnion(map[], v)
    ensures v == []
  {
    assert v != [] ==> Has(v, v[0].gvr);
    assert forall g :: !Offered(map[], g);
  }

  lemma Rebuilding(s: State, s': State, ok: bool)
    requires Rebuilt(s, s', ok) && Inv(s)
    ensures s'.members == s.members
    ensures ok ==> InSync(s')
    ensures s.members == map[] ==> s'.synced == map[]
  {
    var offers := OffersOf(s.members);
    RebuildKeepsInv(s, s', ok);
    if s.members == map[] {
      assert offers == map[];
      assert !Conflicted(offers);
      forall v | UnionAnswer(offers, Some(v)) ensures v == [] {
        EmptyUnion(v);
      }
    }
  }

  /** Every state of every run of the server is sound. */
  lemma RunSound(states: seq<State>, ops: seq<Op>, oks: seq<bool>, k: nat)
    requires IsRun(states, ops, oks) && k < |states|
    ensures Sound(states[k])
  {
    EmptyInv();
    for i := 0 to k
      invariant Sound(states[i])
    {
      StepSound(states[i], ops[i], states[i + 1], oks[i]);
    }
  }

  lemma DriftSound(w: World, s: State, s': State)
    requires Sound(s) && Drifted(w, s, s')
    ensures Sound(s') && s'.members.Keys == s.members.Keys
  {
    var path: seq<State>, answers, oks :| Resyncs(w, path, answers, oks) && path[0] == s && path[|answers|] == s';
    for i := 0 to |answers|
      invariant Sound(path[i]) && path[i].members.Keys == s.members.Keys
    {
      StepSound(path[i], Resync(answers[i]), path[i + 1], oks[i]);
    }
  }

  /** The cluster was reached and its discovery could be resolved. */
  predicate Usable(cluster: SpecCluster, reach: Option<Reach>) {
    reach.Some? && Resolve(reach.value.answer, cluster.selectors).Some?
  }

  function UsableNames(spec: seq<SpecCluster>, reaches: seq<Option<Reach>>): set<string>
    requires |reaches| == |spec|
  {
    if spec == [] then {}
    else
      var k := |spec| - 1;
      UsableNames(spec[..k], reaches[..k]) + if Usable(spec[k], reaches[k]) then {spec[k].name} else {}
  }

  lemma RegisterSound(w: World, s: State, cluster: SpecCluster, reach: Option<Reach>, s': State, ok: bool)
    requires Sound(s) && Registered(w, s, cluster, reach, s', ok)
    ensures Sound(s') && (ok ==> Usable(cluster, reach) && InSync(s'))
    ensures s'.members.Keys == s.members.Keys + if Usable(cluster, reach) then {cluster.name} else {}
  {
    var m :| Drifted(w, s, m) &&
      match reach
      case None => !w.Stable? && !ok && s' == m
      case Some(r) => Goes(w, m, SetCluster(cluster.name, r.client, r.answer, cluster.selectors), s', ok);
    DriftSound(w, s, m);
    if reach.Some? {
      StepSound(m, SetCluster(cluster.name, reach.value.client, reach.value.answer, cluster.selectors), s', ok);
    }
  }

  lemma UsableSnoc(known: set<string>, spec: seq<SpecCluster>, reaches: seq<Option<Reach>>, i: nat)
    requires |reaches| == |spec| && i < |spec|
    ensures known + UsableNames(spec[..i + 1], reaches[..i + 1]) ==
            known + UsableNames(spec[..i], reaches[..i]) + if Usable(spec[i], reaches[i]) then {spec[i].name} else {}
  {
    assert spec[..i + 1][..i] == spec[..i] && reaches[..i + 1][..i] == reaches[..i];
  }

  lemma {:induction false} UsableWithin(spec: seq<SpecCluster>, reaches: seq<Option<Reach>>)
    requires |reaches| == |spec|
    ensures UsableNames(spec, reaches) <= Names(spec)
    ensures (forall i :: 0 <= i < |spec| ==> Usable(spec[i], reaches[i])) ==> UsableNames(spec, reaches) == Names(spec)
  {
    if spec != [] {
      var k := |spec| - 1;
      UsableWithin(spec[..k], reaches[..k]);
      NamesSnoc(spec, |spec|);
      assert spec[..|spec|] == spec;
    }
  }

  lemma NamesSnoc(spec: seq<SpecCluster>, i: nat)
    requires 0 < i <= |spec|
    ensures Names(spec[..i]) == Names(spec[..i - 1]) + {spec[i - 1].name}
  {
  }

  lemma RegisterAllSound(w: World, path: seq<State>, spec: seq<SpecCluster>, reaches: seq<Option<Reach>>,
                         oks: seq<bool>, k: nat)
    requires RegisteredAll(w, path, spec, reaches, oks) && Sound(path[0]) && k <= |spec|
    ensures Sound(path[k]) && path[k].members.Keys == path[0].members.Keys + UsableNames(spec[..k], reaches[..k])
  {
    for i := 0 to k
      invariant Sound(path[i]) && path[i].members.Keys == path[0].members.Keys + UsableNames(spec[..i], reaches[..i])
    {
      RegisterSound(w, path[i], spec[i], reaches[i], path[i + 1], oks[i]);
      UsableSnoc(path[0].members.Keys, spec, reaches, i);
    }
  }

  lemma RegisteredUsable(w: World, path: seq<State>, spec: seq<SpecCluster>, reaches: seq<Option<Reach>>,
                         oks: seq<bool>, i: nat)
    requires RegisteredAll(w, path, spec, reaches, oks) && Sound(path[0]) && i < |spec| && oks[i]
    ensures Usable(spec[i], reaches[i]) && InSync(path[i + 1])
  {
    RegisterAllSound(w, path, spec, reaches, oks, i);
    RegisterSound(w, path[i], spec[i], reaches[i], path[i + 1], oks[i]);
  }

  lemma RegistrationSound(w: World, path: seq<State>, spec: seq<SpecCluster>, reaches: seq<Option<Reach>>,
                          oks: seq<bool>)
    requires RegisteredAll(w, path, spec, reaches, oks) && Sound(path[0])
    ensures Sound(path[|spec|]) && path[|spec|].members.Keys == path[0].members.Keys + UsableNames(spec, reaches)
    ensures AllTrue(oks) ==> UsableNames(spec, reaches) == Names(spec) && (spec != [] ==> InSync(path[|spec|]))
  {
    RegisterAllSound(w, path, spec, reaches, oks, |spec|);
    assert spec[..|spec|] == spec && reaches[..|spec|] == reaches;
    if AllTrue(oks) {
      forall i | 0 <= i < |spec| ensures Usable(spec[i], reaches[i]) && InSync(path[i + 1]) {
        RegisteredUsable(w, path, spec, reaches, oks, i);
      }
      UsableWithin(spec, reaches);
    }
  }

  lemma RemoveSound(w: World, s: State, name: string, s': State, ok: bool)
    requires Sound(s) && Removed(w, s, name, s', ok)
    ensures Sound(s') && s'.members.Keys == s.members.Keys - {name} && (ok ==> InSync(s'))
  {
    var m :| Drifted(w, s, m) && Goes(w, m, RemoveCluster(name), s', ok);
    DriftSound(w, s, m);
    StepSound(m, RemoveCluster(name), s', ok);
  }

  lemma RemoveAllSound(w: World, path: seq<State>, names: seq<string>, oks: seq<bool>)
    requires RemovedAll(w, path, names, oks) && Sound(path[0])
    ensures var s := path[|names|];
            && Sound(s) && (forall c :: c in s.members <==> c in path[0].members && c !in names)
            && (names != [] && oks[|names| - 1] ==> InSync(s))
  {
    hide Sound, InSync, Removed;
    for i := 0 to |names|
      invariant Sound(path[i])
      invariant forall c :: c in path[i].members <==> c in path[0].members && c !in names[..i]
      invariant i > 0 && oks[i - 1] ==> InSync(path[i])
    {
      RemoveSound(w, path[i], names[i], path[i + 1], oks[i]);
      Snoc(names, i + 1);
    }
    assert names[..|names|] == names;
  }

  lemma EmptyOrNot(names: seq<string>)
    ensures names == [] || exists c :: c in names
  {
    assert names != [] ==> names[0] in names;
  }

  lemma Snoc(names: seq<string>, i: nat)
    requires 0 < i <= |names|
    ensures forall c :: c in names[..i] <==> c in names[..i - 1] || c == names[i - 1]
  {
  }

  /**
   After any pass, whatever failed in it, exactly those spec clusters are registered that were
   registered before or could be used now, and nothing else is.  Ready means that all of them
   are and that the server is in sync with them.
   */
  lemma PassMembership(w: World, s: State, spec: seq<SpecCluster>, reaches: seq<Option<Reach>>, t: Trace, s': State,
                       ready: bool)
    requires Sound(s) && Pass(w, s, spec, reaches, t, s', ready)
    ensures Sound(s')
    ensures s'.members.Keys == (s.members.Keys + UsableNames(spec, reaches)) * Names(spec)
    ensures ready ==> s'.members.Keys == Names(spec) && InSync(s')
  {
    var m := t.removing[0];
    RegistrationSound(w, t.registering, spec, reaches, t.registered);
    RemoveAllSound(w, t.removing, t.stale, t.removed);
    UsableWithin(spec, reaches);
    Kept(m.members.Keys, s'.members.Keys, spec, t.stale);
    if ready && spec == [] && t.stale == [] {
      EmptyInSync(s');
    }
  }

  lemma Kept(before: set<string>, after: set<string>, spec: seq<SpecCluster>, stale: seq<string>)
    requires forall c :: c in stale <==> c in before && c !in Names(spec)
    requires forall c :: c in after <==> c in before && c !in stale
    ensures after == before * Names(spec)
  {
  }

  lemma EmptyInSync(s: State)
    requires Sound(s) && s.members == map[]
    ensures InSync(s)
  {
  }

  // Whose client a cluster is reached by.

  /** Whether the cluster is a member, through which client and by which selectors, is as it was. */
  ghost predicate SameAccess(s: State, s': State, c: string) {
    && (c in s'.members <==> c in s.members)
    && (c in s'.members ==>
          s'.members[c].client == s.members[c].client && s'.members[c].selectors == s.members[c].selectors)
  }

  /** The cluster is a member with this entry's selectors, through the client made for it. */
  ghost predicate ReachedAs(s: State, entry: SpecCluster, reach: Option<Reach>) {
    && reach.Some? && entry.name in s.members
    && s.members[entry.name].client == reach.value.client && s.members[entry.name].selectors == entry.selectors
  }

  lemma DriftKeepsAccess(w: World, s: State, s': State, c: string)
    requires Drifted(w, s, s')
    ensures SameAccess(s, s', c)
  {
    var path: seq<State>, answers, oks :| Resyncs(w, path, answers, oks) && path[0] == s && path[|answers|] == s';
    for i := 0 to |answers|
      invariant SameAccess(s, path[i], c)
    {
      assert Goes(w, path[i], Resync(answers[i]), path[i + 1], oks[i]);
      StepMembers(path[i], Resync(answers[i]), path[i + 1], oks[i]);
    }
  }

  lemma RegisterAccess(w: World, s: State, entry: SpecCluster, reach: Option<Reach>, s': State, ok: bool, c: string)
    requires Registered(w, s, entry, reach, s', ok)
    ensures if c == entry.name && Usable(entry, reach) then ReachedAs(s', entry, reach) else SameAccess(s, s', c)
  {
    var m :| Drifted(w, s, m) &&
      match reach
      case None => !w.Stable? && !ok && s' == m
      case Some(r) => Goes(w, m, SetCluster(entry.name, r.client, r.answer, entry.selectors), s', ok);
    DriftKeepsAccess(w, s, m, c);
    if reach.Some? {
      StepMembers(m, SetCluster(entry.name, reach.value.client, reach.value.answer, entry.selectors), s', ok);
    }
  }

  lemma RemoveAccess(w: World, s: State, name: string, s': State, ok: bool, c: string)
    requires Removed(w, s, name, s', ok) && c in s'.members
    ensures SameAccess(s, s', c)
  {
    var m :| Drifted(w, s, m) && Goes(w, m, RemoveCluster(name), s', ok);
    DriftKeepsAccess(w, s, m, c);
    StepMembers(m, RemoveCluster(name), s', ok);
  }

  /** Entry i is the last one of cluster c that could be used. */
  predicate LastUsable(spec: seq<SpecCluster>, reaches: seq<Option<Reach>>, c: string, i: int)
    requires |reaches| == |spec|
  {
    && 0 <= i < |spec| && spec[i].name == c && Usable(spec[i], reaches[i])
    && forall j :: i < j < |spec| && spec[j].name == c ==> !Usable(spec[j], reaches[j])
  }

  predicate NeverUsable(spec: seq<SpecCluster>, reaches: seq<Option<Reach>>, c: string)
    requires |reaches| == |spec|
  {
    forall i :: 0 <= i < |spec| && spec[i].name == c ==> !Usable(spec[i], reaches[i])
  }

  lemma RegisterAllAccess(w: World, path: seq<State>, spec: seq<SpecCluster>, reaches: seq<Option<Reach>>,
                          oks: seq<bool>, c: string)
    requires RegisteredAll(w, path, spec, reaches, oks)
    ensures forall i :: LastUsable(spec, reaches, c, i) ==> ReachedAs(path[|spec|], spec[i], reaches[i])
    ensures NeverUsable(spec, reaches, c) ==> SameAccess(path[0], path[|spec|], c)
  {
    hide Registered, Usable;
    for k := 0 to |spec|
      invariant forall i :: LastUsable(spec[..k], reaches[..k], c, i) ==> ReachedAs(path[k], spec[i], reaches[i])
      invariant NeverUsable(spec[..k], reaches[..k], c) ==> SameAccess(path[0], path[k], c)
    {
      RegisterAccess(w, path[k], spec[k], reaches[k], path[k + 1], oks[k], c);
      AccessSnoc(path, spec, reaches, k, c);
    }
    assert spec[..|spec|] == spec && reaches[..|spec|] == reaches;
  }

  lemma AccessSnoc(path: seq<State>, spec: seq<SpecCluster>, reaches: seq<Option<Reach>>, k: nat, c: string)
    requires k < |spec| == |reaches| && |path| == |spec| + 1
    requires forall i :: LastUsable(spec[..k], reaches[..k], c, i) ==> ReachedAs(path[k], spec[i], reaches[i])
    requires NeverUsable(spec[..k], reaches[..k], c) ==> SameAccess(path[0], path[k], c)
    requires if c == spec[k].name && Usable(spec[k], reaches[k]) then ReachedAs(path[k + 1], spec[k], reaches[k])
             else SameAccess(path[k], path[k + 1], c)
    ensures forall i :: LastUsable(spec[..k + 1], reaches[..k + 1], c, i) ==>
              ReachedAs(path[k + 1], spec[i], reaches[i])
    ensures NeverUsable(spec[..k + 1], reaches[..k + 1], c) ==> SameAccess(path[0], path[k + 1], c)
  {
    hide Usable;
    var now, with := spec[..k + 1], reaches[..k + 1];
    assert now[k] == spec[k] && with[k] == reaches[k];
    assert forall j :: 0 <= j < k ==> spec[..k][j] == now[j] && reaches[..k][j] == with[j];
    forall i | LastUsable(now, with, c, i) ensures ReachedAs(path[k + 1], spec[i], reaches[i]) {
      if i < k {
        assert LastUsable(spec[..k], reaches[..k], c, i);
      }
    }
    if NeverUsable(now, with, c) {
      assert NeverUsable(spec[..k], reaches[..k], c);
    }
  }

  lemma RemoveAllAccess(w: World, path: seq<State>, names: seq<string>, oks: seq<bool>, c: string)
    requires RemovedAll(w, path, names, oks) && c in path[|names|].members
    ensures SameAccess(path[0], path[|names|], c)
  {
    hide Removed;
    for i := 0 to |names|
      invariant c in path[i].members ==> SameAccess(path[0], path[i], c)
    {
      if c in path[i + 1].members {
        RemoveAccess(w, path[i], names[i], path[i + 1], oks[i], c);
      }
    }
  }

  /**
   After any pass, whatever failed in it, a registered cluster is reached through the client and
   by the selectors of the last of its entries that could be used in the pass.  If none could, it
   was registered before and is reached as it was.  No resync in between changes that.
   */
  lemma PassClients(w: World, s: State, spec: seq<SpecCluster>, reaches: seq<Option<Reach>>, t: Trace, s': State,
                    ready: bool, c: string)
    requires |reaches| == |spec| && Pass(w, s, spec, reaches, t, s', ready) && c in s'.members
    ensures forall i :: LastUsable(spec, reaches, c, i) ==> ReachedAs(s', spec[i], reaches[i])
    ensures NeverUsable(spec, reaches, c) ==> SameAccess(s, s', c)
  {
    hide Registered, Removed, RegisteredAll, RemovedAll;
    RemoveAllAccess(w, t.removing, t.stale, t.removed, c);
    RegisterAllAccess(w, t.registering, spec, reaches, t.registered, c);
  }

  // Convergence.

  function ResolvedFor(entry: SpecCluster, answers: map<string, seq<APIResourceList>>): Option<seq<ServedResource>> {
    if entry.name in answers then Resolved(answers[entry.name], entry.selectors) else None
  }

  /**
   Every entry resolves, to resources with names and kinds, and agrees with every other entry
   about kind and scope of each resource.
   */
  ghost predicate Compatible(spec: seq<SpecCluster>, answers: map<string, seq<APIResourceList>>) {
    && (forall i :: 0 <= i < |spec| ==>
          ResolvedFor(spec[i], answers).Some? && Presentable(ResolvedFor(spec[i], answers).value))
    && forall i, j :: 0 <= i < |spec| && 0 <= j < |spec| ==>
         AllFit(ResolvedFor(spec[i], answers).value, ResolvedFor(spec[j], answers).value)
  }

  ghost predicate AllFit(a: seq<ServedResource>, b: seq<ServedResource>) {
    forall r, t :: r in a && t in b && r.gvr == t.gvr ==> Agree(r, t)
  }

  /** Member c offers what a spec entry of its name resolves to. */
  ghost predicate FromSpec(spec: seq<SpecCluster>, answers: map<string, seq<APIResourceList>>, c: string, m: Member) {
    c in answers && exists i :: 0 <= i < |spec| && spec[i].name == c && spec[i].selectors == m.selectors &&
                                Resolved(answers[c], m.selectors) == Some(m.resources)
  }

  /** The members called so offer what the spec says. */
  ghost predicate Follows(spec: seq<SpecCluster>, answers: map<string, seq<APIResourceList>>,
                          members: map<string, Member>, names: set<string>)
  {
    forall c :: c in names ==> c in members && FromSpec(spec, answers, c, members[c])
  }

  lemma FollowersFit(spec: seq<SpecCluster>, answers: map<string, seq<APIResourceList>>, members: map<string, Member>)
    requires Compatible(spec, answers) && Follows(spec, answers, members, members.Keys)
    ensures !Faulty(members)
  {
  }

  lemma StepFollows(w: World, s: State, op: Op, s': State, ok: bool, spec: seq<SpecCluster>, names: set<string>)
    requires w.Stable? && Sound(s) && Goes(w, s, op, s', ok) && Follows(spec, w.answers, s.members, names)
    requires op.RemoveCluster? ==> op.name !in names
    requires op.SetCluster? ==> exists i :: 0 <= i < |spec| && spec[i] == SpecCluster(op.name, op.selectors)
    ensures Follows(spec, w.answers, s'.members, names)
    ensures op.SetCluster? && Resolve(op.answer, op.selectors).Some? ==>
              Follows(spec, w.answers, s'.members, names + {op.name})
  {
    StepMembers(s, op, s', ok);
    if op.Resync? {
      forall c | c in names ensures c in s'.members && FromSpec(spec, w.answers, c, s'.members[c]) {
        assert FromSpec(spec, w.answers, c, s.members[c]);
        var i :| 0 <= i < |spec| && spec[i].name == c && spec[i].selectors == s.members[c].selectors;
      }
    } else if op.SetCluster? && Resolve(op.answer, op.selectors).Some? {
      var i :| 0 <= i < |spec| && spec[i] == SpecCluster(op.name, op.selectors);
      assert FromSpec(spec, w.answers, op.name, s'.members[op.name]);
    }
  }

  lemma DriftFollows(w: World, s: State, s': State, spec: seq<SpecCluster>, names: set<string>)
    requires w.Stable? && Sound(s) && Drifted(w, s, s') && Follows(spec, w.answers, s.members, names)
    ensures Follows(spec, w.answers, s'.members, names)
  {
    var path: seq<State>, answers, oks :| Resyncs(w, path, answers, oks) && path[0] == s && path[|answers|] == s';
    for i := 0 to |answers|
      invariant Sound(path[i]) && Follows(spec, w.answers, path[i].members, names)
    {
      StepSound(path[i], Resync(answers[i]), path[i + 1], oks[i]);
      StepFollows(w, path[i], Resync(answers[i]), path[i + 1], oks[i], spec, names);
    }
  }

  /** A spec entry of a stable world is registered, whether or not the rebuild succeeds. */
  lemma RegisterFollows(w: World, s: State, i: nat, reach: Option<Reach>, s': State, ok: bool,
                        spec: seq<SpecCluster>, names: set<string>)
    requires w.Stable? && Sound(s) && Compatible(spec, w.answers) && i < |spec|
    requires Registered(w, s, spec[i], reach, s', ok) && Follows(spec, w.answers, s.members, names)
    ensures Follows(spec, w.answers, s'.members, names + {spec[i].name})
    ensures w.builds && !ok ==> Faulty(s'.members)
  {
    var cluster, r := spec[i], reach.value;
    var m :| Drifted(w, s, m) && Goes(w, m, SetCluster(cluster.name, r.client, r.answer, cluster.selectors), s', ok);
    DriftSound(w, s, m);
    DriftFollows(w, s, m, spec, names);
    StepFollows(w, m, Op.SetCluster(cluster.name, r.client, r.answer, cluster.selectors), s', ok, spec, names);
  }

  lemma RegisterAllFollows(w: World, path: seq<State>, spec: seq<SpecCluster>, reaches: seq<Option<Reach>>,
                           oks: seq<bool>)
    requires RegisteredAll(w, path, spec, reaches, oks) && Sound(path[0]) && w.Stable? && Compatible(spec, w.answers)
    ensures Follows(spec, w.answers, path[|spec|].members, Names(spec))
  {
    for i := 0 to |spec|
      invariant Sound(path[i]) && Follows(spec, w.answers, path[i].members, Names(spec[..i]))
    {
      RegisterSound(w, path[i], spec[i], reaches[i], path[i + 1], oks[i]);
      RegisterFollows(w, path[i], i, reaches[i], path[i + 1], oks[i], spec, Names(spec[..i]));
      NamesSnoc(spec, i + 1);
    }
    assert spec[..|spec|] == spec;
  }

  /** The members are exactly the spec's, and offer what it says. */
  ghost predicate Conforms(spec: seq<SpecCluster>, answers: map<string, seq<APIResourceList>>,
                           members: map<string, Member>)
  {
    members.Keys == Names(spec) && Follows(spec, answers, members, Names(spec))
  }

  lemma RegisterConforms(w: World, s: State, i: nat, reach: Option<Reach>, s': State, ok: bool, spec: seq<SpecCluster>)
    requires w.Stable? && Sound(s) && Compatible(spec, w.answers) && i < |spec|
    requires Registered(w, s, spec[i], reach, s', ok) && Conforms(spec, w.answers, s.members)
    ensures Sound(s') && Conforms(spec, w.answers, s'.members) && (w.builds ==> ok)
  {
    hide Sound, Registered, Compatible, Faulty, FromSpec;
    RegisterFollows(w, s, i, reach, s', ok, spec, Names(spec));
    assert Names(spec) + {spec[i].name} == Names(spec);
    RegisterSound(w, s, spec[i], reach, s', ok);
    FollowersFit(spec, w.answers, s'.members);
  }

  lemma RegisterAllConform(w: World, path: seq<State>, spec: seq<SpecCluster>, reaches: seq<Option<Reach>>,
                           oks: seq<bool>, k: nat)
    requires RegisteredAll(w, path, spec, reaches, oks) && Sound(path[0]) && k <= |spec|
    requires w.Stable? && Compatible(spec, w.answers) && Conforms(spec, w.answers, path[0].members)
    ensures Sound(path[k]) && Conforms(spec, w.answers, path[k].members)
  {
    for i := 0 to k
      invariant Sound(path[i]) && Conforms(spec, w.answers, path[i].members)
    {
      RegisterConforms(w, path[i], i, reaches[i], path[i + 1], oks[i], spec);
    }
  }

  lemma ConformingSucceeds(w: World, path: seq<State>, spec: seq<SpecCluster>, reaches: seq<Option<Reach>>,
                           oks: seq<bool>, i: nat)
    requires RegisteredAll(w, path, spec, reaches, oks) && Sound(path[0]) && i < |spec|
    requires w.Stable? && w.builds && Compatible(spec, w.answers) && Conforms(spec, w.answers, path[0].members)
    ensures oks[i]
  {
    RegisterAllConform(w, path, spec, reaches, oks, i);
    RegisterConforms(w, path[i], i, reaches[i], path[i + 1], oks[i], spec);
  }

  lemma RemoveFollows(w: World, s: State, name: string, s': State, ok: bool, spec: seq<SpecCluster>, names: set<string>)
    requires w.Stable? && Sound(s) && Removed(w, s, name, s', ok) && Follows(spec, w.answers, s.members, names)
    requires name !in names
    ensures Follows(spec, w.answers, s'.members, names)
  {
    var m :| Drifted(w, s, m) && Goes(w, m, RemoveCluster(name), s', ok);
    DriftSound(w, s, m);
    DriftFollows(w, s, m, spec, names);
    StepFollows(w, m, RemoveCluster(name), s', ok, spec, names);
  }

  lemma RemoveAllFollows(w: World, path: seq<State>, stale: seq<string>, oks: seq<bool>, spec: seq<SpecCluster>,
                         names: set<string>)
    requires RemovedAll(w, path, stale, oks) && Sound(path[0])
    requires w.Stable? && Follows(spec, w.answers, path[0].members, names)
    requires forall c :: c in stale ==> c !in names
    ensures Follows(spec, w.answers, path[|stale|].members, names)
  {
    for i := 0 to |stale|
      invariant Sound(path[i]) && Follows(spec, w.answers, path[i].members, names)
    {
      RemoveSound(w, path[i], stale[i], path[i + 1], oks[i]);
      RemoveFollows(w, path[i], stale[i], path[i + 1], oks[i], spec, names);
    }
  }

  lemma CompatibleUsable(w: World, path: seq<State>, spec: seq<SpecCluster>, reaches: seq<Option<Reach>>,
                         oks: seq<bool>)
    requires w.Stable? && Compatible(spec, w.answers) && RegisteredAll(w, path, spec, reaches, oks)
    ensures UsableNames(spec, reaches) == Names(spec)
  {
    forall i | 0 <= i < |spec| ensures Usable(spec[i], reaches[i]) {
      assert Registered(w, path[i], spec[i], reaches[i], path[i + 1], oks[i]);
    }
    UsableWithin(spec, reaches);
  }

  /** After one pass in a stable world the members are those of the spec, even if rebuilds failed. */
  lemma FirstPassConforms(w: World, s: State, spec: seq<SpecCluster>, reaches: seq<Option<Reach>>, t: Trace,
                          s': State, ready: bool)
    requires w.Stable? && Sound(s) && Compatible(spec, w.answers)
    requires Pass(w, s, spec, reaches, t, s', ready)
    ensures Sound(s') && Conforms(spec, w.answers, s'.members)
  {
    RegistrationSound(w, t.registering, spec, reaches, t.registered);
    RegisterAllFollows(w, t.registering, spec, reaches, t.registered);
    RemoveAllFollows(w, t.removing, t.stale, t.removed, spec, Names(spec));
    PassMembership(w, s, spec, reaches, t, s', ready);
    CompatibleUsable(w, t.registering, spec, reaches, t.registered);
  }

  lemma ConformingPassReady(w: World, s: State, spec: seq<SpecCluster>, reaches: seq<Option<Reach>>, t: Trace,
                            s': State, ready: bool)
    requires w.Stable? && w.builds && Sound(s) && Compatible(spec, w.answers) && Conforms(spec, w.answers, s.members)
    requires Pass(w, s, spec, reaches, t, s', ready)
    ensures ready
  {
    forall i | 0 <= i < |spec| ensures t.registered[i] {
      ConformingSucceeds(w, t.registering, spec, reaches, t.registered, i);
    }
    RegisterAllConform(w, t.registering, spec, reaches, t.registered, |spec|);
    EmptyOrNot(t.stale);
  }

  /**
   Convergence: in a stable world with compatible clusters, when inner servers can be built
   during the second pass, that pass is Ready and leaves the server in sync with the spec,
   from any sound state, even if the first pass failed on a conflicting stale cluster.
   */
  lemma SecondPassReady(w: World, s: State, spec: seq<SpecCluster>, first: seq<Option<Reach>>, t1: Trace, s1: State,
                        ready1: bool,
                        s2: State, second: seq<Option<Reach>>, t2: Trace, s3: State, ready2: bool)
    requires w.Stable? && w.builds && Sound(s) && Compatible(spec, w.answers)
    requires Pass(w.(builds := false), s, spec, first, t1, s1, ready1)
    requires Drifted(w.(builds := false), s1, s2)
    requires Pass(w, s2, spec, second, t2, s3, ready2)
    ensures ready2 && InSync(s3) && Conforms(spec, w.answers, s3.members)
  {
    var shaky := w.(builds := false);
    FirstPassConforms(shaky, s, spec, first, t1, s1, ready1);
    DriftSound(shaky, s1, s2);
    DriftFollows(shaky, s1, s2, spec, Names(spec));
    ConformingPassReady(w, s2, spec, second, t2, s3, ready2);
    FirstPassConforms(w, s2, spec, second, t2, s3, ready2);
    PassMembership(w, s2, spec, second, t2, s3, ready2);
  }

  // The pass itself.

  /** Resyncs that happen to run now. */
  method Drift(server: Server, w: World)
    modifies server
    ensures Drifted(w, old(server.View()), server.View())
  {
    var rounds: nat :| rounds >= 0;
    ghost var path, all, oks := [server.View()], [], [];
    for n := 0 to rounds
      invariant |all| == n && Resyncs(w, path, all, oks)
      invariant path[0] == old(server.View()) && path[n] == server.View()
    {
      var answers: map<string, Answer> := *;
      if !Truthful(w, answers) {
        answers := map[];
      }
      var broken: bool := *;
      var ok := server.Resync(answers, broken && !Builds(w));
      assert Goes(w, path[n], Op.Resync(answers), server.View(), ok);
      ResyncsSnoc(w, path, all, oks, answers, server.View(), ok);
      path, all, oks := path + [server.View()], all + [answers], oks + [ok];
    }
  }

  lemma ResyncsSnoc(w: World, path: seq<State>, all: seq<map<string, Answer>>, oks: seq<bool>,
                    answers: map<string, Answer>, s: State, ok: bool)
    requires Resyncs(w, path, all, oks) && Goes(w, path[|all|], Resync(answers), s, ok)
    ensures Resyncs(w, path + [s], all + [answers], oks + [ok])
  {
    var path', all', oks' := path + [s], all + [answers], oks + [ok];
    forall i | 0 <= i < |all'| ensures Goes(w, path'[i], Resync(all'[i]), path'[i + 1], oks'[i]) {
      if i < |all| {
        assert Goes(w, path[i], Resync(all[i]), path[i + 1], oks[i]);
      }
    }
  }

  method RegisterCluster(server: Server, w: World, cluster: SpecCluster, reach: Option<Reach>) returns (ok: bool)
    requires Reachable(w, cluster.name, reach)
    modifies server
    ensures Registered(w, old(server.View()), cluster, reach, server.View(), ok)
  {
    Drift(server, w);
    ghost var m := server.View();
    if reach.None? {
      return false;
    }
    var client, answer := reach.value.client, reach.value.answer;
    var broken: bool := *;
    ok := server.SetCluster(cluster.name, client, answer, cluster.selectors, broken && !Builds(w));
    assert Goes(w, m, Op.SetCluster(cluster.name, client, answer, cluster.selectors), server.View(), ok);
  }

  /**
   In world w: registers the spec's clusters, removes the others, and reports whether all
   of that worked.
   */
  method Run(server: Server, w: World, spec: seq<SpecCluster>, reaches: seq<Option<Reach>>)
    returns (ready: bool, ghost t: Trace)
    requires |reaches| == |spec| && forall i :: 0 <= i < |spec| ==> Reachable(w, spec[i].name, reaches[i])
    modifies server
    ensures Pass(w, old(server.View()), spec, reaches, t, server.View(), ready)
  {
    hide Registered, Removed, Reachable;
    var specClusters: seq<string> := [];
    var failures := 0;
    ghost var path, oks := [server.View()], [];
    for i := 0 to |spec|
      invariant forall c :: c in specClusters <==> c in Names(spec[..i])
      invariant RegisteredAll(w, path, spec[..i], reaches[..i], oks)
      invariant path[0] == old(server.View()) && path[i] == server.View()
      invariant failures >= 0 && (failures == 0 <==> AllTrue(oks))
    {
      specClusters := specClusters + [spec[i].name];
      NamesSnoc(spec, i + 1);
      var ok := RegisterCluster(server, w, spec[i], reaches[i]);
      RegisteredSnoc(w, path, spec, reaches, oks, i, server.View(), ok);
      path, oks := path + [server.View()], oks + [ok];
      if !ok {
        failures := failures + 1;
      }
    }
    assert spec[..|spec|] == spec && reaches[..|spec|] == reaches;
    var stale, removing, removed, more := RemoveOthers(server, w, specClusters);
    t := Trace(path, oks, stale, removing, removed);
    ready := failures + more == 0;
  }

  lemma RegisteredSnoc(w: World, path: seq<State>, spec: seq<SpecCluster>, reaches: seq<Option<Reach>>,
                       oks: seq<bool>, i: nat, s: State, ok: bool)
    requires i < |spec| == |reaches| && RegisteredAll(w, path, spec[..i], reaches[..i], oks)
    requires Registered(w, path[i], spec[i], reaches[i], s, ok)
    ensures RegisteredAll(w, path + [s], spec[..i + 1], reaches[..i + 1], oks + [ok])
    ensures AllTrue(oks + [ok]) <==> AllTrue(oks) && ok
  {
    var path', oks' := path + [s], oks + [ok];
    forall j | 0 <= j < i + 1
      ensures Registered(w, path'[j], spec[..i + 1][j], reaches[..i + 1][j], path'[j + 1], oks'[j])
    {
      if j < i {
        assert Registered(w, path[j], spec[..i][j], reaches[..i][j], path[j + 1], oks[j]);
      }
    }
    AllTrueSnoc(oks, ok);
  }

  lemma AllTrueSnoc(oks: seq<bool>, ok: bool)
    ensures AllTrue(oks + [ok]) <==> AllTrue(oks) && ok
  {
    var more := oks + [ok];
    assert more[|oks|] == ok && forall i :: 0 <= i < |oks| ==> more[i] == oks[i];
  }

  /** Removes the clusters no longer in the spec and counts the failures. */
  method RemoveOthers(server: Server, w: World, specClusters: seq<string>)
    returns (ghost stale: seq<string>, ghost path: seq<State>, ghost oks: seq<bool>, failures: nat)
    modifies server
    ensures forall c :: c in stale <==> c in old(server.members) && c !in specClusters
    ensures RemovedAll(w, path, stale, oks) && path[0] == old(server.View()) && path[|stale|] == server.View()
    ensures failures == 0 <==> AllTrue(oks)
  {
    var names := server.Clusters();
    stale, path, oks, failures := [], [server.View()], [], 0;
    for i := 0 to |names|
      invariant forall c :: c in stale <==> c in names[..i] && c !in specClusters
      invariant RemovedAll(w, path, stale, oks)
      invariant path[0] == old(server.View()) && path[|stale|] == server.View()
      invariant failures == 0 <==> AllTrue(oks)
    {
      Snoc(names, i + 1);
      if names[i] in specClusters {
        continue;
      }
      var ok := RemoveOne(server, w, names[i]);
      RemovedSnoc(w, path, stale, oks, names[i], server.View(), ok);
      stale, path, oks := stale + [names[i]], path + [server.View()], oks + [ok];
      if !ok {
        failures := failures + 1;
      }
    }
    assert names[..|names|] == names;
  }

  method RemoveOne(server: Server, w: World, name: string) returns (ok: bool)
    modifies server
    ensures Removed(w, old(server.View()), name, server.View(), ok)
  {
    Drift(server, w);
    ghost var m := server.View();
    var broken: bool := *;
    ok := server.RemoveCluster(name, broken && !Builds(w));
    assert Goes(w, m, Op.RemoveCluster(name), server.View(), ok);
  }

  lemma RemovedSnoc(w: World, path: seq<State>, names: seq<string>, oks: seq<bool>, name: string, s: State, ok: bool)
    requires RemovedAll(w, path, names, oks) && Removed(w, path[|names|], name, s, ok)
    ensures RemovedAll(w, path + [s], names + [name], oks + [ok])
    ensures AllTrue(oks + [ok]) <==> AllTrue(oks) && ok
  {
    var path', names', oks' := path + [s], names + [name], oks + [ok];
    forall j | 0 <= j < |names'| ensures Removed(w, path'[j], names'[j], path'[j + 1], oks'[j]) {
      if j < |names| {
        assert Removed(w, path[j], names[j], path[j + 1], oks[j]);
      }
    }
    AllTrueSnoc(oks, ok);
  }
}
