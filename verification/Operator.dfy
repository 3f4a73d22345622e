/**
 The finalizer lifecycle of the child workloads
 (pkg/controllers/operator/aggregatedapi/reconciler.go) as a step system.  Passes over one
 AggregatedAPI are serialized, passes over different ones run side by side.  An object is the
 sequence of its versions.  Reads come from a cache, which lags but does not go back; an
 update takes effect only on the version it was made from; every call may fail before or
 after its effect; a pass may be cut short anywhere.
 */
module Operator {
  datatype Key = Key(namespace: string, name: string)

  /** The name of the child Deployment and Service; all children share one namespace. */
  function ChildName(k: Key): string {
    "aggregator-" + k.namespace + "-" + k.name
  }

  /** One version of an AggregatedAPI: deletion timestamp, this finalizer, other finalizers. */
  datatype Version = Absent | Present(deleting: bool, finalizer: bool, others: bool)

  /** The call a pass makes next; `at` is the version its copy of the object was read at. */
  datatype Pc =
    | Idle
    | AddingFinalizer(at: nat) | ApplyingDeployment | ApplyingService
    | DeletingDeployment(at: nat) | DeletingService(at: nat) | Releasing(at: nat)

  /** An object's versions, the latest one that was read, and the pass over it. */
  datatype Cell = Cell(versions: seq<Version>, seen: nat, pc: Pc)

  datatype State = State(cells: map<Key, Cell>, deployments: set<string>, services: set<string>)

  const INITIAL := State(map[], {}, {})

  /** Done took effect and returned no error, Lost took effect and failed, Refused had no effect. */
  datatype Outcome = Done | Lost | Refused

  datatype Action =
      // the pass over the object
    | Get(at: nat) | Call(outcome: Outcome) | Crash
      // anybody else; nobody else removes the finalizer
    | Create(finalizer: bool, others: bool) | Delete | Touch(others: bool)

  datatype Step = Step(key: Key, action: Action)

  function CellOf(s: State, k: Key): Cell {
    if k in s.cells then s.cells[k] else Cell([Absent], 0, Idle)
  }

  function Latest(c: Cell): Version {
    if c.versions == [] then Absent else c.versions[|c.versions| - 1]
  }

  /** What the API server stores when an object is written: a deleted object without finalizers goes. */
  function Stored(v: Version): Version {
    if v.Present? && v.deleting && !v.finalizer && !v.others then Absent else v
  }

  predicate Updates(pc: Pc) {
    pc.AddingFinalizer? || pc.Releasing?
  }

  predicate CanAct(c: Cell, a: Action) {
    match a
    case Get(at) => c.pc.Idle? && c.seen <= at < |c.versions|
    case Call(o) => !c.pc.Idle? && (Updates(c.pc) && !o.Refused? ==> c.pc.at == |c.versions| - 1 && Latest(c).Present?)
    case Crash => true
    case Create(_, _) => Latest(c).Absent?
    case Delete => Latest(c).Present? && !Latest(c).deleting
    case Touch(_) => Latest(c).Present?
  }

  /** reconcile's branches on the object it read. */
  function AfterGet(v: Version, at: nat): Pc {
    match v
    case Absent => Idle
    case Present(deleting, finalizer, _) =>
      if deleting then (if finalizer then DeletingDeployment(at) else Idle)
      else if finalizer then ApplyingDeployment else AddingFinalizer(at)
  }

  function Following(pc: Pc): Pc {
    match pc
    case AddingFinalizer(_) => ApplyingDeployment
    case ApplyingDeployment => ApplyingService
    case DeletingDeployment(at) => DeletingService(at)
    case DeletingService(at) => Releasing(at)
    case _ => Idle
  }

  function Written(c: Cell, v: Version): Cell {
    c.(versions := c.versions + [Stored(v)])
  }

  /** The effect of the pass's next call on the object itself. */
  function Effect(c: Cell): Cell {
    if Updates(c.pc) && Latest(c).Present? then Written(c, Latest(c).(finalizer := c.pc.AddingFinalizer?)) else c
  }

  function Acted(c: Cell, a: Action): Cell
    requires CanAct(c, a)
  {
    match a
    case Get(at) => c.(seen := at, pc := AfterGet(c.versions[at], at))
    case Call(o) => (if o.Refused? then c else Effect(c)).(pc := if o.Done? then Following(c.pc) else Idle)
    case Crash => c.(pc := Idle)
    case Create(finalizer, others) => Written(c, Present(false, finalizer, others))
    case Delete => Written(c, Latest(c).(deleting := true))
    case Touch(others) => Written(c, Latest(c).(others := others))
  }

  function ChildrenAfter(names: set<string>, name: string, applies: bool, deletes: bool): set<string> {
    if applies then names + {name} else if deletes then names - {name} else names
  }

  predicate Enabled(s: State, step: Step) {
    CanAct(CellOf(s, step.key), step.action)
  }

  function Next(s: State, step: Step): State
    requires Enabled(s, step)
  {
    var c, n := CellOf(s, step.key), ChildName(step.key);
    var lands := step.action.Call? && !step.action.outcome.Refused?;
    State(s.cells[step.key := Acted(c, step.action)],
          ChildrenAfter(s.deployments, n, lands && c.pc.ApplyingDeployment?, lands && c.pc.DeletingDeployment?),
          ChildrenAfter(s.services, n, lands && c.pc.ApplyingService?, lands && c.pc.DeletingService?))
  }

  ghost predicate IsRun(path: seq<State>, steps: seq<Step>) {
    && |path| == |steps| + 1 && path[0] == INITIAL
    && forall i :: 0 <= i < |steps| ==> Enabled(path[i], steps[i]) && path[i + 1] == Next(path[i], steps[i])
  }

  // The invariant.

  predicate Holds(c: Cell) {
    Latest(c).Present? && Latest(c).finalizer
  }

  predicate Settled(v: Version) {
    v.Present? && v.finalizer && !v.deleting
  }

  predicate Doomed(v: Version) {
    v.Present? && v.finalizer && v.deleting
  }

  /**
   The finalizer outlives every version that can still be read as settled, is there while
   children are applied, and a pass that cleans up works from a doomed version.
   */
  ghost predicate CellOk(c: Cell) {
    && c.seen < |c.versions|
    && (forall i :: c.seen <= i < |c.versions| && Settled(c.versions[i]) ==> Holds(c))
    && match c.pc
       case Idle => true
       case AddingFinalizer(at) => at <= c.seen && c.versions[at].Present? && !c.versions[at].deleting
       case ApplyingDeployment => Holds(c)
       case ApplyingService => Holds(c)
       case DeletingDeployment(at) => at <= c.seen && Doomed(c.versions[at])
       case DeletingService(at) => at <= c.seen && Doomed(c.versions[at])
       case Releasing(at) => at <= c.seen && Doomed(c.versions[at])
  }

  lemma WrittenOk(c: Cell, v: Version)
    requires CellOk(c) && v.Present? && (Holds(c) ==> v.finalizer)
    ensures CellOk(Written(c, v)) && (Holds(c) ==> Holds(Written(c, v)))
  {
  }

  /** Releasing works from the latest version, so nothing settled can be read any more. */
  lemma ReleaseOk(c: Cell)
    requires CellOk(c) && c.pc.Releasing? && c.pc.at == |c.versions| - 1
    ensures CellOk(Effect(c).(pc := Idle)) && !Holds(Effect(c))
  {
  }

  lemma CallOk(c: Cell, o: Outcome)
    requires CellOk(c) && CanAct(c, Call(o))
    ensures CellOk(Acted(c, Call(o)))
    ensures Holds(c) && !c.pc.Releasing? ==> Holds(Acted(c, Call(o)))
  {
  }

  lemma ActedOk(c: Cell, a: Action)
    requires CellOk(c) && CanAct(c, a)
    ensures CellOk(Acted(c, a))
    ensures Holds(c) && !(c.pc.Releasing? && a.Call?) ==> Holds(Acted(c, a))
  {
    match a
    case Get(at) =>
    case Crash =>
    case Create(finalizer, others) => WrittenOk(c, Present(false, finalizer, others));
    case Delete => WrittenOk(c, Latest(c).(deleting := true));
    case Touch(others) => WrittenOk(c, Latest(c).(others := others));
    case Call(o) => CallOk(c, o);
  }

  /** k answers for its Deployment: it has the finalizer and its pass is not beyond deleting it. */
  predicate KeepsDeployment(c: Cell) {
    Holds(c) && !c.pc.DeletingService? && !c.pc.Releasing?
  }

  predicate KeepsService(c: Cell) {
    Holds(c) && !c.pc.Releasing?
  }

  ghost predicate DeploymentKept(s: State, n: string) {
    exists k :: ChildName(k) == n && KeepsDeployment(CellOf(s, k))
  }

  ghost predicate ServiceKept(s: State, n: string) {
    exists k :: ChildName(k) == n && KeepsService(CellOf(s, k))
  }

  ghost predicate Inv(s: State) {
    && (forall k :: CellOk(CellOf(s, k)))
    && (forall n :: n in s.deployments ==> DeploymentKept(s, n))
    && (forall n :: n in s.services ==> ServiceKept(s, n))
  }

  lemma CellsAfter(s: State, step: Step, k: Key)
    requires Enabled(s, step)
    ensures CellOf(Next(s, step), k) == if k == step.key then Acted(CellOf(s, k), step.action) else CellOf(s, k)
  {
  }

  lemma DeploymentStaysKept(s: State, step: Step, n: string)
    requires Inv(s) && Enabled(s, step) && n in Next(s, step).deployments
    ensures DeploymentKept(Next(s, step), n)
  {
    var t := Next(s, step);
    var c := CellOf(s, step.key);
    ActedOk(c, step.action);
    CellsAfter(s, step, step.key);
    if n in s.deployments {
      var k :| ChildName(k) == n && KeepsDeployment(CellOf(s, k));
      CellsAfter(s, step, k);
      assert KeepsDeployment(CellOf(t, k));
    } else {
      assert KeepsDeployment(CellOf(t, step.key));
    }
  }

  lemma ServiceStaysKept(s: State, step: Step, n: string)
    requires Inv(s) && Enabled(s, step) && n in Next(s, step).services
    ensures ServiceKept(Next(s, step), n)
  {
    var t := Next(s, step);
    var c := CellOf(s, step.key);
    ActedOk(c, step.action);
    CellsAfter(s, step, step.key);
    if n in s.services {
      var k :| ChildName(k) == n && KeepsService(CellOf(s, k));
      CellsAfter(s, step, k);
      assert KeepsService(CellOf(t, k));
    } else {
      assert KeepsService(CellOf(t, step.key));
    }
  }

  lemma StepKeepsInv(s: State, step: Step)
    requires Inv(s) && Enabled(s, step)
    ensures Inv(Next(s, step))
  {
    var t := Next(s, step);
    forall k ensures CellOk(CellOf(t, k)) {
      CellsAfter(s, step, k);
      ActedOk(CellOf(s, step.key), step.action);
    }
    forall n | n in t.deployments ensures DeploymentKept(t, n) {
      DeploymentStaysKept(s, step, n);
    }
    forall n | n in t.services ensures ServiceKept(t, n) {
      ServiceStaysKept(s, step, n);
    }
  }

  lemma {:induction false} RunKeepsInv(path: seq<State>, steps: seq<Step>, i: nat)
    requires IsRun(path, steps) && i < |path|
    ensures Inv(path[i])
  {
    if i > 0 {
      RunKeepsInv(path, steps, i - 1);
      StepKeepsInv(path[i - 1], steps[i - 1]);
    }
  }

  /** No other object that exists in state s has k's child name. */
  ghost predicate AloneNow(s: State, k: Key) {
    forall j :: ChildName(j) == ChildName(k) && Latest(CellOf(s, j)).Present? ==> j == k
  }

  /**
   No orphans, in every state of every run: a child exists only while an AggregatedAPI of its
   name exists with the finalizer, and that is its own one if no other existing one shares the name.
   */
  lemma NoOrphans(path: seq<State>, steps: seq<Step>, i: nat)
    requires IsRun(path, steps) && i < |path|
    ensures forall n :: n in path[i].deployments + path[i].services ==>
              exists k :: ChildName(k) == n && Holds(CellOf(path[i], k))
    ensures forall k :: ChildName(k) in path[i].deployments + path[i].services && AloneNow(path[i], k) ==>
              Holds(CellOf(path[i], k))
  {
    var s := path[i];
    RunKeepsInv(path, steps, i);
    forall n | n in s.deployments + s.services ensures exists k :: ChildName(k) == n && Holds(CellOf(s, k)) {
      if n in s.deployments {
        var k :| ChildName(k) == n && KeepsDeployment(CellOf(s, k));
        assert Holds(CellOf(s, k));
      } else {
        var k :| ChildName(k) == n && KeepsService(CellOf(s, k));
        assert Holds(CellOf(s, k));
      }
    }
  }

  /** The second half of NoOrphans needs its condition: when j shares k's child name, k need not even exist. */
  lemma SharedNameBreaksOwnership(k: Key, j: Key) returns (path: seq<State>, steps: seq<Step>)
    requires j != k && ChildName(j) == ChildName(k)
    ensures IsRun(path, steps) && ChildName(k) in path[|steps|].deployments && Latest(CellOf(path[|steps|], k)).Absent?
  {
    var s1 := Next(INITIAL, Step(j, Create(false, false)));
    assert CellOf(s1, j) == Cell([Absent, Present(false, false, false)], 0, Idle);
    var s2 := Next(s1, Step(j, Get(1)));
    var s3 := Next(s2, Step(j, Call(Done)));
    var s4 := Next(s3, Step(j, Call(Done)));
    path := [INITIAL, s1, s2, s3, s4];
    steps := [Step(j, Create(false, false)), Step(j, Get(1)), Step(j, Call(Done)), Step(j, Call(Done))];
  }

  /** b's namespace is a's, a dash and part of a's name, and b's name is the rest. */
  ghost predicate Shifted(a: Key, b: Key) {
    exists x :: b.namespace == a.namespace + "-" + x && a.name == x + "-" + b.name
  }

  /** Exactly when two keys share a child name. */
  lemma ChildNamesCollide(a: Key, b: Key)
    ensures ChildName(a) == ChildName(b) <==> a == b || Shifted(a, b) || Shifted(b, a)
  {
    ShiftedCollides(a, b);
    ShiftedCollides(b, a);
    if ChildName(a) == ChildName(b) {
      var p := "aggregator-";
      assert ChildName(a)[|p|..] == a.namespace + "-" + a.name;
      assert ChildName(b)[|p|..] == b.namespace + "-" + b.name;
      if |a.namespace| <= |b.namespace| {
        JoinedAlike(a, b);
      } else {
        JoinedAlike(b, a);
      }
    }
  }

  lemma ShiftedCollides(a: Key, b: Key)
    ensures Shifted(a, b) ==> ChildName(a) == ChildName(b)
  {
  }

  lemma JoinedAlike(a: Key, b: Key)
    requires a.namespace + "-" + a.name == b.namespace + "-" + b.name && |a.namespace| <= |b.namespace|
    ensures a == b || Shifted(a, b)
  {
    var joined := a.namespace + "-" + a.name;
    var la, lb := |a.namespace|, |b.namespace|;
    assert joined[..la] == a.namespace && joined[la] == '-' && joined[la + 1..] == a.name;
    assert joined[..lb] == b.namespace && joined[lb] == '-' && joined[lb + 1..] == b.name;
    if la < lb {
      var x := joined[la + 1..lb];
      assert b.namespace == a.namespace + "-" + x;
      assert a.name == x + "-" + b.name;
    }
  }

  /** Two different objects whose children are the same. */
  lemma ChildNamesNotInjective()
    ensures ChildName(Key("a-b", "c")) == ChildName(Key("a", "b-c"))
    ensures Key("a-b", "c") != Key("a", "b-c")
  {
  }

  // A pass.

  /** The object has existed. */
  ghost predicate Existed(c: Cell) {
    exists i :: 0 <= i < |c.versions| && c.versions[i].Present?
  }

  /** Of the objects that have existed up to state s, only k has k's child name. */
  ghost predicate Alone(s: State, k: Key) {
    forall j :: ChildName(j) == ChildName(k) && Existed(CellOf(s, j)) ==> j == k
  }

  /** Whoever holds the finalizer, or has a pass that can touch children, has existed. */
  lemma ActiveExisted(c: Cell)
    requires CellOk(c) && (Holds(c) || (!c.pc.Idle? && !c.pc.AddingFinalizer?))
    ensures Existed(c)
  {
    if Holds(c) {
      assert c.versions[|c.versions| - 1].Present?;
    } else {
      assert c.versions[c.pc.at].Present?;
    }
  }

  lemma AloneBefore(s: State, step: Step, k: Key)
    requires Enabled(s, step) && Alone(Next(s, step), k)
    ensures Alone(s, k)
  {
    forall j | ChildName(j) == ChildName(k) && Existed(CellOf(s, j)) ensures j == k {
      var c, d := CellOf(s, j), CellOf(Next(s, step), j);
      CellsAfter(s, step, j);
      var i :| 0 <= i < |c.versions| && c.versions[i].Present?;
      assert d.versions[i] == c.versions[i];
    }
  }

  /** While k's pass is about to release, k's children are gone, unless others share their name. */
  lemma CleanedUp(s: State, k: Key)
    requires Inv(s) && Alone(s, k)
    ensures CellOf(s, k).pc.DeletingService? || CellOf(s, k).pc.Releasing? ==> ChildName(k) !in s.deployments
    ensures CellOf(s, k).pc.Releasing? ==> ChildName(k) !in s.services
  {
    var n := ChildName(k);
    if n in s.deployments {
      var j :| ChildName(j) == n && KeepsDeployment(CellOf(s, j));
      ActiveExisted(CellOf(s, j));
    }
    if n in s.services {
      var j :| ChildName(j) == n && KeepsService(CellOf(s, j));
      ActiveExisted(CellOf(s, j));
    }
  }

  /** Without failures a pass over a deleting object removes both children, then the finalizer. */
  lemma FailureFreeFinalize(s: State, k: Key)
    requires Inv(s) && CellOf(s, k).pc.Idle? && Doomed(Latest(CellOf(s, k)))
    ensures var read := Step(k, Get(|CellOf(s, k).versions| - 1));
            var call := Step(k, Call(Done));
            && Enabled(s, read) && var s1 := Next(s, read);
            && Enabled(s1, call) && var s2 := Next(s1, call);
            && Enabled(s2, call) && var s3 := Next(s2, call);
            && ChildName(k) !in s3.deployments && ChildName(k) !in s3.services && Holds(CellOf(s3, k))
            && Enabled(s3, call) && var s4 := Next(s3, call);
            && CellOf(s4, k).pc.Idle? && !Holds(CellOf(s4, k))
            && (Latest(CellOf(s4, k)).Absent? <==> !Latest(CellOf(s, k)).others)
            && s4.deployments == s.deployments - {ChildName(k)} && s4.services == s.services - {ChildName(k)}
  {
    var c := CellOf(s, k);
    var at := |c.versions| - 1;
    assert CellOk(c);
    var s1 := Next(s, Step(k, Get(at)));
    assert CellOf(s1, k) == c.(seen := at, pc := DeletingDeployment(at));
    var s2 := Next(s1, Step(k, Call(Done)));
    assert CellOf(s2, k) == c.(seen := at, pc := DeletingService(at));
    var s3 := Next(s2, Step(k, Call(Done)));
    assert CellOf(s3, k) == c.(seen := at, pc := Releasing(at));
    var s4 := Next(s3, Step(k, Call(Done)));
    assert CellOf(s4, k) == Written(c, Latest(c).(finalizer := false)).(seen := at, pc := Idle);
  }

  lemma Applies(s: State, k: Key)
    requires CellOf(s, k).pc.ApplyingDeployment?
    ensures var call := Step(k, Call(Done));
            && Enabled(s, call) && var s1 := Next(s, call);
            && Enabled(s1, call) && var s2 := Next(s1, call);
            && CellOf(s2, k) == CellOf(s, k).(pc := Idle)
            && s2.deployments == s.deployments + {ChildName(k)} && s2.services == s.services + {ChildName(k)}
  {
    hide ChildName;
    var s1 := Next(s, Step(k, Call(Done)));
    assert CellOf(s1, k) == CellOf(s, k).(pc := ApplyingService);
  }

  /**
   Without failures a pass over an object that is not deleting adds the finalizer if it has none,
   changing nothing else about it, and then makes both children.
   */
  lemma FailureFreeReconcile(s: State, k: Key)
    requires Inv(s) && CellOf(s, k).pc.Idle? && Latest(CellOf(s, k)).Present? && !Latest(CellOf(s, k)).deleting
    ensures var read := Step(k, Get(|CellOf(s, k).versions| - 1));
            var call := Step(k, Call(Done));
            && Enabled(s, read) && var s1 := Next(s, read);
            && (!Latest(CellOf(s, k)).finalizer ==> Enabled(s1, call))
            && var s2 := if Latest(CellOf(s, k)).finalizer then s1 else Next(s1, call);
            && Holds(CellOf(s2, k)) && s2.deployments == s.deployments && s2.services == s.services
            && Enabled(s2, call) && var s3 := Next(s2, call);
            && Enabled(s3, call) && var s4 := Next(s3, call);
            && CellOf(s4, k).pc.Idle? && Latest(CellOf(s4, k)) == Latest(CellOf(s, k)).(finalizer := true)
            && s4.deployments == s.deployments + {ChildName(k)} && s4.services == s.services + {ChildName(k)}
  {
    hide ChildName;
    var c := CellOf(s, k);
    var at := |c.versions| - 1;
    assert CellOk(c);
    var s1 := Next(s, Step(k, Get(at)));
    assert CellOf(s1, k).versions == c.versions;
    var s2 := if Latest(c).finalizer then s1 else Next(s1, Step(k, Call(Done)));
    assert CellOf(s2, k).pc.ApplyingDeployment?;
    Applies(s2, k);
  }

  /** No call failed. */
  predicate AllDone(steps: seq<Step>) {
    forall i :: 0 <= i < |steps| && steps[i].action.Call? ==> steps[i].action.outcome.Done?
  }

  lemma Extended(path: seq<State>, steps: seq<Step>, step: Step) returns (path': seq<State>, steps': seq<Step>)
    requires IsRun(path, steps) && Enabled(path[|steps|], step)
    ensures IsRun(path', steps') && path'[|steps'|] == Next(path[|steps|], step) && steps' == steps + [step]
  {
    path', steps' := path + [Next(path[|steps|], step)], steps + [step];
  }

  /** k is created and a first pass over it has made the Deployment. */
  lemma FirstPass(k: Key) returns (path: seq<State>, steps: seq<Step>)
    ensures IsRun(path, steps) && path[|steps|].cells.Keys == {k} && ChildName(k) in path[|steps|].deployments
    ensures var c := CellOf(path[|steps|], k); c.pc.ApplyingService? && Settled(Latest(c))
    ensures AllDone(steps)
  {
    path, steps := [INITIAL], [];
    path, steps := Extended(path, steps, Step(k, Create(false, false)));
    path, steps := Extended(path, steps, Step(k, Get(1)));
    path, steps := Extended(path, steps, Step(k, Call(Done)));
    assert CellOf(path[|steps|], k).pc == ApplyingDeployment;
    path, steps := Extended(path, steps, Step(k, Call(Done)));
  }

  /** An object is created with the finalizer and deleted, and a pass over it deletes its Deployment. */
  lemma ComesAndGoes(path: seq<State>, steps: seq<Step>, j: Key) returns (path': seq<State>, steps': seq<Step>)
    requires IsRun(path, steps) && j !in path[|steps|].cells
    ensures IsRun(path', steps') && forall k :: k != j ==> CellOf(path'[|steps'|], k) == CellOf(path[|steps|], k)
    ensures ChildName(j) !in path'[|steps'|].deployments
    ensures AllDone(steps) ==> AllDone(steps')
  {
    path', steps' := Extended(path, steps, Step(j, Create(true, false)));
    path', steps' := Extended(path', steps', Step(j, Delete));
    path', steps' := Extended(path', steps', Step(j, Get(2)));
    assert CellOf(path'[|steps'|], j).pc == DeletingDeployment(2);
    path', steps' := Extended(path', steps', Step(j, Call(Done)));
  }

  /**
   What a pass promises needs its condition too: when j shares k's child name, a pass over k in
   which nothing failed can end without k's Deployment.
   */
  lemma SharedNameLosesChildren(k: Key, j: Key) returns (path: seq<State>, steps: seq<Step>)
    requires j != k && ChildName(j) == ChildName(k)
    ensures IsRun(path, steps) && CellOf(path[|steps|], k).pc.Idle? && Settled(Latest(CellOf(path[|steps|], k)))
    ensures AllDone(steps)
    ensures |steps| > 0 && steps[|steps| - 1] == Step(k, Call(Done))
    ensures ChildName(k) in path[|steps|].services && ChildName(k) !in path[|steps|].deployments
  {
    path, steps := FirstPass(k);
    path, steps := ComesAndGoes(path, steps, j);
    path, steps := Extended(path, steps, Step(k, Call(Done)));
  }

  /** How often passes over k have read it. */
  function Gets(steps: seq<Step>, k: Key): nat {
    if steps == [] then 0
    else
      var last := steps[|steps| - 1];
      Gets(steps[..|steps| - 1], k) + if last.key == k && last.action.Get? then 1 else 0
  }

  /** How many calls of passes over k have failed. */
  function Failures(steps: seq<Step>, k: Key): nat {
    if steps == [] then 0
    else
      var last := steps[|steps| - 1];
      Failures(steps[..|steps| - 1], k) +
      if last.key == k && last.action.Call? && !last.action.outcome.Done? then 1 else 0
  }

  /** A step that is not part of k's own pass. */
  predicate Foreign(step: Step, k: Key) {
    step.key != k || step.action.Create? || step.action.Delete? || step.action.Touch?
  }

  /** Foreign steps leave k's pass where it is, and, unless the name is shared, k's children. */
  lemma ForeignStep(s: State, step: Step, k: Key)
    requires Inv(s) && Enabled(s, step) && Foreign(step, k)
    ensures CellOf(Next(s, step), k).pc == CellOf(s, k).pc
    ensures Holds(CellOf(s, k)) ==> Holds(CellOf(Next(s, step), k))
    ensures CellOf(s, k).versions <= CellOf(Next(s, step), k).versions
    ensures Alone(Next(s, step), k) ==>
              && Alone(s, k)
              && (ChildName(k) in Next(s, step).deployments <==> ChildName(k) in s.deployments)
              && (ChildName(k) in Next(s, step).services <==> ChildName(k) in s.services)
  {
    var c := CellOf(s, step.key);
    assert CellOk(c);
    if Alone(Next(s, step), k) {
      AloneBefore(s, step, k);
      if !c.pc.Idle? && !c.pc.AddingFinalizer? {
        ActiveExisted(c);
      }
    }
  }

  /** The cluster the operator works on, with the history of the run so far. */
  class Cluster {
    var state: State
    ghost var path: seq<State>
    ghost var steps: seq<Step>

    ghost predicate Valid()
      reads this
    {
      IsRun(path, steps) && path[|steps|] == state && Inv(state)
    }

    constructor ()
      ensures Valid() && state == INITIAL
    {
      state, path, steps := INITIAL, [INITIAL], [];
    }

    method Take(step: Step)
      requires Valid() && Enabled(state, step)
      modifies this
      ensures Valid() && state == Next(old(state), step) && steps == old(steps) + [step]
      ensures var own := step.action;
              && Gets(steps, step.key) == old(Gets(steps, step.key)) + (if own.Get? then 1 else 0)
              && Failures(steps, step.key) ==
                 old(Failures(steps, step.key)) + (if own.Call? && !own.outcome.Done? then 1 else 0)
              && forall k :: k != step.key ==>
                   && Gets(steps, k) == old(Gets(steps, k)) && Failures(steps, k) == old(Failures(steps, k))
    {
      StepKeepsInv(state, step);
      state := Next(state, step);
      path, steps := path + [state], steps + [step];
    }

    /** What the others do meanwhile: users, and passes over other objects. */
    method Meanwhile(k: Key)
      requires Valid()
      modifies this
      ensures Valid() && old(steps) <= steps
      ensures CellOf(state, k).pc == old(CellOf(state, k).pc)
      ensures Gets(steps, k) == old(Gets(steps, k)) && Failures(steps, k) == old(Failures(steps, k))
      ensures old(Holds(CellOf(state, k))) ==> Holds(CellOf(state, k))
      ensures Alone(state, k) ==>
                && old(Alone(state, k))
                && (ChildName(k) in state.deployments <==> ChildName(k) in old(state.deployments))
                && (ChildName(k) in state.services <==> ChildName(k) in old(state.services))
    {
      var rounds: nat :| rounds >= 0;
      for n := 0 to rounds
        invariant Valid() && old(steps) <= steps
        invariant CellOf(state, k).pc == old(CellOf(state, k).pc)
        invariant Gets(steps, k) == old(Gets(steps, k)) && Failures(steps, k) == old(Failures(steps, k))
        invariant old(Holds(CellOf(state, k))) ==> Holds(CellOf(state, k))
        invariant Alone(state, k) ==>
                    && old(Alone(state, k))
                    && (ChildName(k) in state.deployments <==> ChildName(k) in old(state.deployments))
                    && (ChildName(k) in state.services <==> ChildName(k) in old(state.services))
      {
        var step: Step := *;
        if Enabled(state, step) && Foreign(step, k) {
          ForeignStep(state, step, k);
          Take(step);
        }
      }
    }

    /** The cached read; it may fail. */
    method Read(k: Key) returns (r: (bool, Version))
      requires Valid() && CellOf(state, k).pc.Idle?
      modifies this
      ensures Valid() && old(steps) <= steps
      ensures Gets(steps, k) == old(Gets(steps, k)) + (if r.0 then 1 else 0)
      ensures Failures(steps, k) == old(Failures(steps, k))
      ensures !r.0 ==> CellOf(state, k).pc.Idle?
      ensures r.0 ==> exists at :: CellOf(state, k).pc == AfterGet(r.1, at)
    {
      Meanwhile(k);
      var fails: bool := *;
      if fails {
        return (false, Absent);
      }
      var c := CellOf(state, k);
      assert CellOk(c) && CanAct(c, Get(c.seen));
      var at: nat :| c.seen <= at < |c.versions|;
      Take(Step(k, Get(at)));
      return (true, c.versions[at]);
    }

    /** The call the pass is at: it goes through, or fails with or without effect. */
    method Invoke(k: Key) returns (ok: bool)
      requires Valid() && !CellOf(state, k).pc.Idle?
      modifies this
      ensures Valid() && old(steps) <= steps
      ensures CellOf(state, k).pc == if ok then Following(old(CellOf(state, k).pc)) else Idle
      ensures Gets(steps, k) == old(Gets(steps, k))
      ensures Failures(steps, k) == old(Failures(steps, k)) + (if ok then 0 else 1)
      ensures ok && old(Holds(CellOf(state, k))) && !old(CellOf(state, k).pc.Releasing?) ==> Holds(CellOf(state, k))
      ensures ok && old(CellOf(state, k).pc.Releasing?) ==> !Holds(CellOf(state, k))
      ensures Alone(state, k) ==> old(Alone(state, k))
      ensures ok && Alone(state, k) ==>
                && (old(CellOf(state, k).pc.ApplyingDeployment?) ==> ChildName(k) in state.deployments)
                && (old(CellOf(state, k).pc.ApplyingService?) ==>
                      && ChildName(k) in state.services
                      && (ChildName(k) in old(state.deployments) ==> ChildName(k) in state.deployments))
                && (old(CellOf(state, k).pc.Releasing?) ==> ChildName(k) !in state.deployments + state.services)
    {
      hide IsRun, Gets, Failures, ChildName, Existed;
      Meanwhile(k);
      var c := CellOf(state, k);
      assert CellOk(c);
      var outcome: Outcome := *;
      if !CanAct(c, Call(outcome)) {
        outcome := Refused;
      }
      if c.pc.Releasing? && !outcome.Refused? {
        ReleaseOk(c);
        if Alone(state, k) {
          CleanedUp(state, k);
        }
      }
      ActedOk(c, Call(outcome));
      ghost var before := state;
      Take(Step(k, Call(outcome)));
      if Alone(state, k) {
        AloneBefore(before, Step(k, Call(outcome)), k);
      }
      ok := outcome.Done?;
    }

    /**
     One pass.  It fails exactly if it could not read the object or a call failed.  If not, and
     no other object of this child name has existed, then by what it read: an object not being
     deleted has the finalizer and both children, a deleting one that had the finalizer has lost
     it and both.
     */
    method Reconcile(k: Key) returns (failed: bool, read: Version)
      requires Valid() && CellOf(state, k).pc.Idle?
      modifies this
      ensures Valid() && old(steps) <= steps && CellOf(state, k).pc.Idle?
      ensures failed <==> Gets(steps, k) == old(Gets(steps, k)) || Failures(steps, k) > old(Failures(steps, k))
      ensures !failed && Alone(state, k) && read.Present? && !read.deleting ==>
                Holds(CellOf(state, k)) && ChildName(k) in state.deployments && ChildName(k) in state.services
      ensures !failed && Alone(state, k) && Doomed(read) ==>
                !Holds(CellOf(state, k)) && ChildName(k) !in state.deployments + state.services
    {
      hide IsRun, Alone, Gets, Failures, ChildName;
      var r := Read(k);
      read := r.1;
      if !r.0 {
        return true, read;
      }
      if read.Absent? {
        return false, read;
      }
      if read.deleting {
        failed := Finalize(k, read);
        return failed, read;
      }
      if !read.finalizer {
        var added := Invoke(k);
        if !added {
          return true, read;
        }
      }
      var applied := Invoke(k);
      if !applied {
        return true, read;
      }
      applied := Invoke(k);
      failed := !applied;
    }

    /** Deletes the children and releases the finalizer. */
    method Finalize(k: Key, read: Version) returns (failed: bool)
      requires Valid() && read.Present? && read.deleting && exists at :: CellOf(state, k).pc == AfterGet(read, at)
      modifies this
      ensures Valid() && old(steps) <= steps && CellOf(state, k).pc.Idle?
      ensures Gets(steps, k) == old(Gets(steps, k))
      ensures Failures(steps, k) == old(Failures(steps, k)) + (if failed then 1 else 0)
      ensures !failed && Alone(state, k) && read.finalizer ==>
                !Holds(CellOf(state, k)) && ChildName(k) !in state.deployments + state.services
    {
      hide IsRun, Alone, Gets, Failures, ChildName;
      if !read.finalizer {
        return false;
      }
      var ok := Invoke(k);
      if !ok {
        return true;
      }
      ok := Invoke(k);
      if !ok {
        return true;
      }
      ok := Invoke(k);
      failed := !ok;
    }
  }
}
