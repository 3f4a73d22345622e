/**
 The aggregated server (pkg/apiserver/server.go): members come and go, their discovery is
 read again, and the inner server is rebuilt when the served set differs.  A context made
 for a generation of watches is a number; `made` counts them and `cancelled` holds those
 whose Done is closed.  States below are those seen while the mutex is free.
 */
module Servers {
  import opened Order
  import opened Discovery
  import opened Unions
  import opened Install

  datatype Member = Member(client: Client, selectors: seq<APISelector>, resources: seq<ServedResource>)

  datatype Handler = NotFoundHandler | Inner(gen: nat, resources: seq<ServedResource>, storage: StorageMap)

  /** `synced` is history: what the members offered at the last successful rebuild. */
  datatype State = State(members: map<string, Member>, resources: seq<ServedResource>, handler: Handler,
                         stopWatches: Option<nat>, made: nat, cancelled: set<nat>, synced: Offers)

  /** What a discovery call returned; None is a failed call. */
  type Answer = Option<seq<APIResourceList>>

  function Resolve(a: Answer, selectors: seq<APISelector>): Option<seq<ServedResource>> {
    if a.None? then None else Resolved(a.value, selectors)
  }

  function OffersOf(members: map<string, Member>): Offers {
    map c | c in members :: members[c].resources
  }

  function ClientsIn(members: map<string, Member>): map<string, Client> {
    map c | c in members :: members[c].client
  }

  // The transitions.

  function Swapped(s: State, h: Handler, stop: Option<nat>): State {
    s.(handler := h, stopWatches := stop,
       cancelled := if s.stopWatches.Some? then s.cancelled + {s.stopWatches.value} else s.cancelled)
  }

  ghost predicate RebuiltTo(s: State, u: Option<seq<ServedResource>>, s': State, ok: bool) {
    match u
    case None => !ok && s' == s
    case Some(v) =>
      // Union never returns nil and an empty served set is stored as nil, so an empty
      // result is never DeepEqual to what is stored
      if v != [] && v == s.resources then ok && s' == s.(synced := OffersOf(s.members))
      else if v == [] then
        ok && s' == Swapped(s, NotFoundHandler, None).(resources := [], synced := OffersOf(s.members))
      else if ok then
        exists storage ::
          && Presentable(v) && (Installable(v) ==> Exact(storage, v, ClientsIn(s.members), s.made))
          && s' == Swapped(s.(made := s.made + 1), Inner(s.made, v, storage), Some(s.made))
                   .(resources := v, synced := OffersOf(s.members))
      else s' == s.(made := s.made + 1, cancelled := s.cancelled + {s.made})
  }

  ghost predicate Rebuilt(s: State, s': State, ok: bool) {
    exists u :: UnionAnswer(OffersOf(s.members), u) && RebuiltTo(s, u, s', ok)
  }

  datatype Op =
    | SetCluster(name: string, client: Client, answer: Answer, selectors: seq<APISelector>)
    | RemoveCluster(name: string)
    | Resync(answers: map<string, Answer>)

  function Reread(m: Member, a: Answer): Member {
    var r := Resolve(a, m.selectors);
    if r.None? then m else m.(resources := r.value)
  }

  function Reresolved(members: map<string, Member>, answers: map<string, Answer>): map<string, Member> {
    map c | c in members :: Reread(members[c], if c in answers then answers[c] else None)
  }

  /** The members an operation leaves, whether or not a rebuild that follows succeeds. */
  function MembersAfter(members: map<string, Member>, op: Op): map<string, Member> {
    match op
    case SetCluster(name, client, answer, selectors) =>
      var r := Resolve(answer, selectors);
      if r.None? then members else members[name := Member(client, selectors, r.value)]
    case RemoveCluster(name) => members - {name}
    case Resync(answers) => Reresolved(members, answers)
  }

  /** The operation comes to a rebuild, which may still fail. */
  predicate Rebuilds(s: State, op: Op) {
    match op
    case SetCluster(_, _, answer, selectors) => Resolve(answer, selectors).Some?
    case RemoveCluster(_) => true
    case Resync(answers) => Reresolved(s.members, answers) != s.members
  }

  /** Without a rebuild nothing changes, and only a resync counts as done. */
  ghost predicate Stepped(s: State, op: Op, s': State, ok: bool) {
    if Rebuilds(s, op) then Rebuilt(s.(members := MembersAfter(s.members, op)), s', ok)
    else s' == s && ok == op.Resync?
  }

  // The invariant.

  /** The contexts not cancelled. */
  ghost predicate Live(made: nat, cancelled: set<nat>, g: nat) {
    g < made && g !in cancelled
  }

  /** Exactly the current handler's context is live, and it can be cancelled through stopWatches. */
  ghost predicate OneGeneration(s: State) {
    && (forall g :: Live(s.made, s.cancelled, g) <==> s.handler.Inner? && g == s.handler.gen)
    && (forall g :: g in s.cancelled ==> g < s.made)
    && (s.stopWatches == if s.handler.Inner? then Some(s.handler.gen) else None)
    && (s.handler.NotFoundHandler? <==> s.resources == [])
  }

  /** The storage serves each resource from exactly the clusters its entry names. */
  ghost predicate ServesExactly(storage: StorageMap, resources: seq<ServedResource>) {
    forall g: GVR, c :: Backs(storage, g, c) <==> Named(resources, g, c)
  }

  ghost predicate Named(resources: seq<ServedResource>, g: GVR, c: string) {
    exists u :: u in resources && u.gvr == g && c in u.clusters
  }

  ghost predicate PlainMembers(members: map<string, Member>) {
    forall c :: c in members ==> PlainNames(members[c].resources)
  }

  ghost predicate Inv(s: State) {
    && OneGeneration(s)
    && PlainMembers(s.members)
    && IsUnion(s.synced, s.resources)
    && (s.handler.Inner? ==> s.handler.resources == s.resources && ServesExactly(s.handler.storage, s.resources))
    && (s.handler.Inner? ==> Described(s.handler.storage, s.resources, s.handler.gen))
  }

  const EMPTY := State(map[], [], NotFoundHandler, None, 0, {}, map[])

  lemma EmptyInv()
    ensures Inv(EMPTY)
  {
  }

  lemma SwapKeepsOne(s: State, h: Handler, stop: Option<nat>, renew: bool)
    requires OneGeneration(s)
    requires renew ==> h.Inner? && h.gen == s.made && stop == Some(s.made)
    requires !renew ==> h == NotFoundHandler && stop == None
    ensures var t := if renew then Swapped(s.(made := s.made + 1), h, stop) else Swapped(s, h, stop);
            && (forall g :: Live(t.made, t.cancelled, g) <==> h.Inner? && g == h.gen)
            && (forall g :: g in t.cancelled ==> g < t.made)
            && t.stopWatches == if h.Inner? then Some(h.gen) else None
  {
    var t := if renew then Swapped(s.(made := s.made + 1), h, stop) else Swapped(s, h, stop);
    assert s.handler.Inner? ==> Live(s.made, s.cancelled, s.handler.gen);
    forall g ensures Live(t.made, t.cancelled, g) <==> h.Inner? && g == h.gen {
      assert Live(s.made, s.cancelled, g) <==> s.handler.Inner? && g == s.handler.gen;
    }
  }

  lemma StorageOfUnion(offers: Offers, v: seq<ServedResource>, clients: map<string, Client>, gen: nat,
                       storage: StorageMap)
    requires IsUnion(offers, v) && offers.Keys <= clients.Keys && Exact(storage, v, clients, gen)
    ensures ServesExactly(storage, v)
  {
    forall g: GVR, c ensures Backs(storage, g, c) <==> Named(v, g, c) {
      BackedIffOffered(offers, v, clients, gen, storage, g, c);
      NamedIffOffered(offers, v, g, c);
    }
  }

  lemma NamedIffOffered(offers: Offers, v: seq<ServedResource>, g: GVR, c: string)
    requires IsUnion(offers, v)
    ensures Named(v, g, c) <==> c in offers && Has(offers[c], g)
  {
    forall u | u in v && u.gvr == g ensures c in u.clusters <==> c in offers && Has(offers[c], g) {
      ClustersAreMembers(offers, v, u);
    }
    if c in offers && Has(offers[c], g) {
      assert Offered(offers, g);
      var u :| u in v && u.gvr == g;
    }
  }

  lemma RebuildKeepsInv(s: State, s': State, ok: bool)
    requires Inv(s) && Rebuilt(s, s', ok)
    ensures Inv(s') && s'.members == s.members && s.made <= s'.made && s.cancelled <= s'.cancelled
    ensures ok ==> s'.synced == OffersOf(s.members)
    ensures !ok ==> s'.handler == s.handler && s'.resources == s.resources && s'.stopWatches == s.stopWatches
                    && s'.synced == s.synced
    ensures s'.handler != s.handler && s'.handler.Inner? ==> s'.handler.gen == s.made
  {
    var offers := OffersOf(s.members);
    var u :| UnionAnswer(offers, u) && RebuiltTo(s, u, s', ok);
    if u.Some? && !(u.value != [] && u.value == s.resources) {
      var v := u.value;
      if v == [] {
        SwapKeepsOne(s, NotFoundHandler, None, false);
      } else if ok {
        SwapKeepsOne(s, s'.handler, Some(s.made), true);
        UnionInstallable(offers, v);
        StorageOfUnion(offers, v, ClientsIn(s.members), s.made, s'.handler.storage);
        ExactDescribes(s'.handler.storage, v, ClientsIn(s.members), s.made);
      } else {
        assert forall g :: Live(s'.made, s'.cancelled, g) <==> Live(s.made, s.cancelled, g);
      }
    }
  }

  lemma PlainResolved(a: Answer, selectors: seq<APISelector>)
    ensures Resolve(a, selectors).Some? ==> PlainNames(Resolve(a, selectors).value)
  {
    if Resolve(a, selectors).Some? {
      ResolvedIsExact(a.value, selectors, GVR("", "", ""));
    }
  }

  /** Changing the members alone keeps the invariant. */
  lemma MembersAfterInv(s: State, op: Op)
    requires Inv(s)
    ensures Inv(s.(members := MembersAfter(s.members, op)))
  {
    var now := MembersAfter(s.members, op);
    forall c | c in now ensures PlainNames(now[c].resources) {
      match op
      case SetCluster(name, _, answer, selectors) => PlainResolved(answer, selectors);
      case RemoveCluster(_) =>
      case Resync(answers) => PlainResolved(if c in answers then answers[c] else None, s.members[c].selectors);
    }
  }

  /** Every operation, failed or not, keeps the invariant; a failed one leaves what is served alone. */
  lemma StepKeepsInv(s: State, op: Op, s': State, ok: bool)
    requires Inv(s) && Stepped(s, op, s', ok)
    ensures Inv(s') && s'.members == MembersAfter(s.members, op) && s.made <= s'.made && s.cancelled <= s'.cancelled
    ensures !ok ==> s'.handler == s.handler && s'.resources == s.resources && s'.stopWatches == s.stopWatches
                    && forall g :: Live(s'.made, s'.cancelled, g) <==> Live(s.made, s.cancelled, g)
    ensures s'.synced == if ok && Rebuilds(s, op) then OffersOf(s'.members) else s.synced
    ensures s'.handler != s.handler && s'.handler.Inner? ==> s'.handler.gen >= s.made
  {
    if Rebuilds(s, op) {
      MembersAfterInv(s, op);
      RebuildKeepsInv(s.(members := MembersAfter(s.members, op)), s', ok);
    }
  }

  // Whole runs.

  ghost predicate IsRun(states: seq<State>, ops: seq<Op>, oks: seq<bool>) {
    && |states| == |ops| + 1 && |oks| == |ops| && states[0] == EMPTY
    && forall i :: 0 <= i < |ops| ==> Stepped(states[i], ops[i], states[i + 1], oks[i])
  }

  /** Watch generations: in every state of every run exactly the current one is live, and none revives. */
  lemma {:induction false} RunKeepsInv(states: seq<State>, ops: seq<Op>, oks: seq<bool>, i: nat, k: nat)
    requires IsRun(states, ops, oks) && i <= k < |states|
    ensures Inv(states[k]) && states[i].made <= states[k].made && states[i].cancelled <= states[k].cancelled
  {
    hide Stepped, Inv;
    if k == 0 {
      EmptyInv();
    } else {
      RunKeepsInv(states, ops, oks, if i < k then i else k - 1, k - 1);
      StepKeepsInv(states[k - 1], ops[k - 1], states[k], oks[k - 1]);
    }
  }

  /** A generation number is never used for two handlers. */
  lemma {:induction false} LaterHandlers(states: seq<State>, ops: seq<Op>, oks: seq<bool>, i: nat, k: nat)
    requires IsRun(states, ops, oks) && i <= k < |states|
    ensures var h := states[k].handler; h == states[i].handler || (h.Inner? ==> h.gen >= states[i].made)
    decreases k
  {
    hide Stepped, Inv;
    if i < k {
      LaterHandlers(states, ops, oks, i, k - 1);
      RunKeepsInv(states, ops, oks, i, k - 1);
      StepKeepsInv(states[k - 1], ops[k - 1], states[k], oks[k - 1]);
    }
  }

  /**
   Membership changes end watches: a request that loaded the handler of generation g at
   state i finds g's Done closed at a later state k if and only if that handler was replaced,
   whenever between i and k it opens its watch.
   */
  lemma ReplacedGenerationIsDone(states: seq<State>, ops: seq<Op>, oks: seq<bool>, i: nat, k: nat)
    requires IsRun(states, ops, oks) && i <= k < |states| && states[i].handler.Inner?
    ensures states[i].handler.gen in states[k].cancelled <==> states[k].handler != states[i].handler
  {
    RunKeepsInv(states, ops, oks, i, i);
    RunKeepsInv(states, ops, oks, i, k);
    LaterHandlers(states, ops, oks, i, k);
    var g := states[i].handler.gen;
    assert Live(states[i].made, states[i].cancelled, g);
    assert Live(states[k].made, states[k].cancelled, g) <==> states[k].handler.Inner? && g == states[k].handler.gen;
  }

  /**
   In every state of every run each served resource has a storage of its own kind, scope and
   singular name, with one for its status iff it has one, and there are no others.  Every entry's
   Done is the one of the handler's generation: it is closed later on iff that handler was replaced.
   */
  lemma EntriesEndWithHandler(states: seq<State>, ops: seq<Op>, oks: seq<bool>, i: nat, k: nat, gv: GV, name: string)
    requires IsRun(states, ops, oks) && i <= k < |states| && states[i].handler.Inner?
    ensures Described(states[i].handler.storage, states[i].resources, states[i].handler.gen)
    ensures var b := Lookup(states[i].handler.storage, gv, name);
            b.Some? ==> (DoneOf(b.value) in states[k].cancelled <==> states[k].handler != states[i].handler)
  {
    RunKeepsInv(states, ops, oks, i, i);
    ReplacedGenerationIsDone(states, ops, oks, i, k);
    if Lookup(states[i].handler.storage, gv, name).Some? {
      DescribedDone(states[i].handler.storage, states[i].resources, states[i].handler.gen, gv, name);
    }
  }

  lemma RebuildMembers(s: State, s': State, ok: bool)
    requires Rebuilt(s, s', ok)
    ensures s'.members == s.members
  {
  }

  lemma StepMembers(s: State, op: Op, s': State, ok: bool)
    requires Stepped(s, op, s', ok)
    ensures s'.members == MembersAfter(s.members, op)
  {
    if Rebuilds(s, op) {
      RebuildMembers(s.(members := MembersAfter(s.members, op)), s', ok);
    }
  }

  // From discovery to what is served.

  /** A member's discovery answer and the selectors it was resolved with. */
  datatype Source = Source(lists: seq<APIResourceList>, selectors: seq<APISelector>)

  function SourceAfter(before: Option<Source>, op: Op, c: string): Option<Source> {
    match op
    case SetCluster(name, _, answer, selectors) =>
      if name == c && Resolve(answer, selectors).Some? then Some(Source(answer.value, selectors)) else before
    case RemoveCluster(name) => if name == c then None else before
    case Resync(answers) =>
      if before.Some? && c in answers && Resolve(answers[c], before.value.selectors).Some?
      then Some(before.value.(lists := answers[c].value)) else before
  }

  /** Cluster c's last resolved discovery after these operations, None if c is not registered. */
  function LastSource(ops: seq<Op>, c: string): Option<Source> {
    if ops == [] then None else SourceAfter(LastSource(ops[..|ops| - 1], c), ops[|ops| - 1], c)
  }

  /** The source lists g as a resource of its own, and its selectors take it. */
  ghost predicate Gives(src: Option<Source>, g: GVR) {
    src.Some? && Lists(src.value.lists, g) && Matches(g, src.value.selectors)
  }

  /** c is a member exactly if it has a source, and offers what that resolves to. */
  ghost predicate ComesFrom(members: map<string, Member>, c: string, src: Option<Source>) {
    && (c in members <==> src.Some?)
    && (src.Some? ==>
          && members[c].selectors == src.value.selectors
          && Resolved(src.value.lists, src.value.selectors) == Some(members[c].resources))
  }

  lemma {:induction false} RunComesFrom(states: seq<State>, ops: seq<Op>, oks: seq<bool>, k: nat, c: string)
    requires IsRun(states, ops, oks) && k < |states|
    ensures ComesFrom(states[k].members, c, LastSource(ops[..k], c))
  {
    if k > 0 {
      RunComesFrom(states, ops, oks, k - 1, c);
      StepMembers(states[k - 1], ops[k - 1], states[k], oks[k - 1]);
      assert ops[..k][..k - 1] == ops[..k - 1];
    }
  }

  lemma OffersGiven(members: map<string, Member>, c: string, src: Option<Source>, g: GVR)
    requires ComesFrom(members, c, src)
    ensures c in OffersOf(members) && Has(OffersOf(members)[c], g) <==> Gives(src, g)
  {
    if src.Some? {
      ResolvedIsExact(src.value.lists, src.value.selectors, g);
    }
  }

  /** The state the last successful rebuild before state k led to, or the first one. */
  function SyncedAt(states: seq<State>, ops: seq<Op>, oks: seq<bool>, k: nat): (i: nat)
    requires |states| == |ops| + 1 && |oks| == |ops| && k < |states|
    ensures i <= k
  {
    if k == 0 || (oks[k - 1] && Rebuilds(states[k - 1], ops[k - 1])) then k else SyncedAt(states, ops, oks, k - 1)
  }

  lemma {:induction false} RunSyncs(states: seq<State>, ops: seq<Op>, oks: seq<bool>, k: nat)
    requires IsRun(states, ops, oks) && k < |states|
    ensures states[k].synced == OffersOf(states[SyncedAt(states, ops, oks, k)].members)
  {
    hide Stepped, Inv, Rebuilds;
    if k == 0 {
      assert OffersOf(EMPTY.members) == map[];
    } else {
      RunSyncs(states, ops, oks, k - 1);
      RunKeepsInv(states, ops, oks, k - 1, k - 1);
      StepKeepsInv(states[k - 1], ops[k - 1], states[k], oks[k - 1]);
    }
  }

  /** The client through which the current handler serves g from c, if it does. */
  function ClientIn(s: State, g: GVR, c: string): Option<Client> {
    if s.handler.Inner? then ClientFor(s.handler.storage, g, c) else None
  }

  lemma BackedIffSynced(s: State, g: GVR, c: string)
    requires Inv(s)
    ensures ClientIn(s, g, c).Some? <==> c in s.synced && Has(s.synced[c], g)
  {
    NamedIffOffered(s.synced, s.resources, g, c);
    if s.handler.Inner? {
      assert Backs(s.handler.storage, g, c) <==> Named(s.resources, g, c);
    }
  }

  /**
   In every state of every run the served set is the union of what the members offered at the
   last successful rebuild, and cluster c backs g exactly when c's last resolved discovery as
   of then lists g itself and c's selectors take it.  It is the discovery as of now while the
   members still offer the same, as they do right after every successful rebuild.
   */
  lemma RunServesDiscovery(states: seq<State>, ops: seq<Op>, oks: seq<bool>, k: nat, g: GVR, c: string)
    requires IsRun(states, ops, oks) && k < |states|
    ensures var i := SyncedAt(states, ops, oks, k);
            && IsUnion(OffersOf(states[i].members), states[k].resources)
            && (ClientIn(states[k], g, c).Some? <==> Gives(LastSource(ops[..i], c), g))
            && (OffersOf(states[k].members) == OffersOf(states[i].members) ==>
                  (ClientIn(states[k], g, c).Some? <==> Gives(LastSource(ops[..k], c), g)))
  {
    var i := SyncedAt(states, ops, oks, k);
    RunKeepsInv(states, ops, oks, k, k);
    RunSyncs(states, ops, oks, k);
    BackedIffSynced(states[k], g, c);
    RunComesFrom(states, ops, oks, i, c);
    OffersGiven(states[i].members, c, LastSource(ops[..i], c), g);
    RunComesFrom(states, ops, oks, k, c);
    OffersGiven(states[k].members, c, LastSource(ops[..k], c), g);
  }

  // Which clients serve.

  /** A rebuild that swaps the handler serves through the members' clients, any other through those it had. */
  lemma RebuildClients(s: State, s': State, ok: bool, g: GVR, c: string)
    requires Inv(s) && Rebuilt(s, s', ok)
    ensures s'.handler != s.handler && ClientIn(s', g, c).Some? ==>
              c in s.members && ClientIn(s', g, c) == Some(s.members[c].client)
    ensures s'.handler == s.handler || (ok && s'.resources != s.resources)
    ensures s'.handler == s.handler ==> s'.resources == s.resources
  {
    var offers := OffersOf(s.members);
    var u :| UnionAnswer(offers, u) && RebuiltTo(s, u, s', ok);
    assert s.handler.Inner? ==> Live(s.made, s.cancelled, s.handler.gen);
    if s'.handler != s.handler && s'.handler.Inner? {
      UnionInstallable(offers, u.value);
      ClientsAsGiven(s'.handler.storage, u.value, ClientsIn(s.members), s.made, g, c);
    }
  }

  /**
   In every state of every run the clients that serve are those the members had when the
   handler was swapped in, which was at state i.
   */
  lemma {:induction false} RunServesClients(states: seq<State>, ops: seq<Op>, oks: seq<bool>, k: nat) returns (i: nat)
    requires IsRun(states, ops, oks) && k < |states| && states[k].handler.Inner?
    ensures 0 < i <= k && states[i - 1].handler != states[i].handler
    ensures forall j :: i <= j <= k ==> states[j].handler == states[k].handler
    ensures forall g, c :: ClientIn(states[k], g, c).Some? ==>
              c in states[i].members && ClientIn(states[k], g, c) == Some(states[i].members[c].client)
  {
    RunKeepsInv(states, ops, oks, k - 1, k - 1);
    if states[k - 1].handler == states[k].handler {
      i := RunServesClients(states, ops, oks, k - 1);
      assert forall g, c :: ClientIn(states[k], g, c) == ClientIn(states[k - 1], g, c);
    } else {
      i := k;
      forall g, c | ClientIn(states[k], g, c).Some?
        ensures c in states[k].members && ClientIn(states[k], g, c) == Some(states[k].members[c].client)
      {
        StepClients(states[k - 1], ops[k - 1], states[k], oks[k - 1], g, c);
      }
    }
  }

  lemma StepClients(s: State, op: Op, s': State, ok: bool, g: GVR, c: string)
    requires Inv(s) && Stepped(s, op, s', ok)
    ensures s'.handler != s.handler && ClientIn(s', g, c).Some? ==>
              c in s'.members && ClientIn(s', g, c) == Some(s'.members[c].client)
    ensures s'.handler == s.handler || (ok && s'.resources != s.resources)
    ensures s'.handler == s.handler ==> s'.resources == s.resources
  {
    if Rebuilds(s, op) {
      MembersAfterInv(s, op);
      RebuildMembers(s.(members := MembersAfter(s.members, op)), s', ok);
      RebuildClients(s.(members := MembersAfter(s.members, op)), s', ok, g, c);
    }
  }

  // The object.

  class Server {
    var members: map<string, Member>
    var resources: seq<ServedResource>
    var handler: Handler
    var stopWatches: Option<nat>
    var made: nat
    var cancelled: set<nat>
    ghost var synced: Offers

    ghost function View(): State
      reads this
    {
      State(members, resources, handler, stopWatches, made, cancelled, synced)
    }

    /** Serves 404 until the first SetCluster. */
    constructor ()
      ensures View() == EMPTY
    {
      members, resources, handler, stopWatches := map[], [], NotFoundHandler, None;
      made, cancelled, synced := 0, {}, map[];
    }

    /** Installs a handler and cancels the previous generation's context. */
    method SwapHandler(h: Handler, stop: Option<nat>)
      modifies this`handler, this`stopWatches, this`cancelled
      ensures View() == Swapped(old(View()), h, stop)
    {
      handler := h;
      if stopWatches.Some? {
        cancelled := cancelled + {stopWatches.value};
      }
      stopWatches := stop;
    }

    /** A rebuild fails only with the building of the inner server or because of what members offer. */
    ghost predicate Excused(broken: bool)
      reads this
    {
      broken || Conflicted(OffersOf(members)) || !PresentableOffers(OffersOf(members))
    }

    /** Rebuilds the inner server from the members; `broken` says that it cannot be built now. */
    method Rebuild(broken: bool) returns (ok: bool)
      modifies this
      ensures Rebuilt(old(View()), View(), ok)
      ensures !ok ==> Excused(broken)
    {
      hide IsUnion, Conflicted, Exact;
      ghost var s := View();
      var byCluster := map name | name in members :: members[name].resources;
      assert byCluster == OffersOf(members);
      var union := Union(byCluster);
      if union.None? {
        assert RebuiltTo(s, union, View(), false);
        return false;
      }
      var v := union.value;
      if v != [] && v == resources {
        synced := byCluster;
        assert RebuiltTo(s, union, View(), true);
        return true;
      }
      if v == [] {
        SwapHandler(NotFoundHandler, None);
        resources := [];
        synced := byCluster;
        assert RebuiltTo(s, union, View(), true);
        return true;
      }
      var clients := map name | name in members :: members[name].client;
      assert clients == ClientsIn(members);
      var ctx := made;
      made := made + 1;
      var built := InstallResources(v, clients, ctx);
      if built.Err? || broken {
        cancelled := cancelled + {ctx};
        assert RebuiltTo(s, union, View(), false);
        if built.Err? {
          InstallCannotBlameMembers(byCluster, v, clients, built.error);
          UnionPresentable(byCluster, v);
        }
        return false;
      }
      SwapHandler(Inner(ctx, v, built.value), Some(ctx));
      resources := v;
      synced := byCluster;
      assert RebuiltTo(s, union, View(), true);
      return true;
    }

    method SetCluster(name: string, client: Client, answer: Answer, selectors: seq<APISelector>, broken: bool)
      returns (ok: bool)
      modifies this
      ensures Stepped(old(View()), Op.SetCluster(name, client, answer, selectors), View(), ok)
      ensures !ok && Resolve(answer, selectors).Some? ==> Excused(broken)
    {
      var r := Resolve(answer, selectors);
      if r.None? {
        return false;
      }
      members := members[name := Member(client, selectors, r.value)];
      ok := Rebuild(broken);
    }

    method RemoveCluster(name: string, broken: bool) returns (ok: bool)
      modifies this
      ensures Stepped(old(View()), Op.RemoveCluster(name), View(), ok)
      ensures !ok ==> Excused(broken)
    {
      members := members - {name};
      ok := Rebuild(broken);
    }

    /** The sorted names of the registered members. */
    method Clusters() returns (names: seq<string>)
      ensures Distinct(names) && Sorted(names, StringKey) && forall c :: c in names <==> c in members
    {
      var found: seq<string> := [];
      var todo := members.Keys;
      while todo != {}
        invariant todo <= members.Keys && Distinct(found)
        invariant forall c :: c in found <==> c in members && c !in todo
        decreases todo
      {
        var c :| c in todo;
        found := found + [c];
        todo := todo - {c};
      }
      names := SortStrings(found);
      PermutationOfDistinct(found, names);
    }

    /** Reads every member's discovery again, in place; a failed read keeps the last result. */
    method ReadAgain(answers: map<string, Answer>) returns (changed: bool)
      modifies this`members
      ensures members == Reresolved(old(members), answers)
      ensures changed <==> members != old(members)
    {
      ghost var before, after := members, Reresolved(members, answers);
      changed := false;
      var todo := members.Keys;
      while todo != {}
        invariant todo <= before.Keys && members.Keys == before.Keys
        invariant forall c :: c in before ==> members[c] == if c in todo then before[c] else after[c]
        invariant changed <==> exists c :: c in before && c !in todo && after[c] != before[c]
        decreases todo
      {
        var c :| c in todo;
        todo := todo - {c};
        var r := Resolve(if c in answers then answers[c] else None, members[c].selectors);
        if r.None? {
          continue;
        }
        if r.value != members[c].resources {
          members := members[c := members[c].(resources := r.value)];
          changed := true;
        }
      }
    }

    /** Rebuilds if any member's discovery changed. */
    method Resync(answers: map<string, Answer>, broken: bool) returns (ok: bool)
      modifies this
      ensures Stepped(old(View()), Op.Resync(answers), View(), ok)
      ensures !ok ==> Excused(broken)
    {
      var changed := ReadAgain(answers);
      if !changed {
        return true;
      }
      ok := Rebuild(broken);
    }
  }
}
