/**
 What the proxy's storage operations mean, on values: a fleet maps each serving
 cluster to its object store, and every operation is a function or a relation on
 fleets.  The class in Storage.dfy is proved against these definitions.
 */
module Fleets {
  import opened Order
  import opened Metadata

  type Store = map<Name, Object>
  type Fleet = map<string, Store>

  datatype Error =
    | NotFound
    | Conflict(holders: seq<string>)
    | AlreadyExists
    | BadRequest
    | Invalid
    | Internal
    | Rejected
    | Remote

  ghost predicate WellKeyed(f: Fleet) {
    forall c, n :: c in f && n in f[c] ==> NameOf(f[c][n]) == n
  }

  // Finding one object: reader.go, locate.

  datatype Probe = Hit(obj: Object) | Missing | Failed

  function ProbeOf(f: Fleet, at: Name, down: set<string>, cluster: string): Probe
    requires cluster in f
  {
    if cluster in down then Failed
    else if at in f[cluster] then Hit(f[cluster][at])
    else Missing
  }

  function Probes(f: Fleet, at: Name, down: set<string>): map<string, Probe> {
    map c | c in f :: ProbeOf(f, at, down, c)
  }

  function Holders(probes: map<string, Probe>): set<string> {
    set c | c in probes && probes[c].Hit?
  }

  ghost predicate AnyFailed(probes: map<string, Probe>) {
    exists c :: c in probes && probes[c].Failed?
  }

  ghost function Only(s: set<string>): (x: string)
    requires |s| == 1
    ensures s == {x}
  {
    var x :| x in s;
    assert |s - {x}| == 0;
    x
  }

  ghost function Verdict(probes: map<string, Probe>): Result<(string, Object), Error> {
    var holders := Holders(probes);
    if AnyFailed(probes) then Err(Internal)
    else if holders == {} then Err(NotFound)
    else if |holders| == 1 then
      var c := Only(holders);
      Ok((c, probes[c].obj))
    else Err(Conflict(SortStrings(Ordering(holders))))
  }

  /** The probe fails closed: what each answer says about every member. */
  lemma LocateFailsClosed(probes: map<string, Probe>)
    ensures Verdict(probes) == Err(Internal) <==> AnyFailed(probes)
    ensures Verdict(probes) == Err(NotFound) <==> forall c :: c in probes ==> probes[c].Missing?
    ensures forall c, o :: Verdict(probes) == Ok((c, o)) <==>
              && c in probes && probes[c] == Hit(o)
              && forall d :: d in probes && d != c ==> probes[d].Missing?
    ensures Verdict(probes).Err? && Verdict(probes).error.Conflict? <==>
              !AnyFailed(probes) && exists c, d :: c in Holders(probes) && d in Holders(probes) && c != d
    ensures forall names :: Verdict(probes) == Err(Conflict(names)) ==>
              && Distinct(names) && Sorted(names, StringKey)
              && forall c :: c in names <==> c in probes && probes[c].Hit?
  {
    hide Sorted, Distinct;
    var holders := Holders(probes);
    assert forall c :: c in probes ==> (probes[c].Hit? <==> c in holders);
    if !AnyFailed(probes) {
      if |holders| == 1 {
        var c := Only(holders);
        assert forall d :: d in probes && d != c ==> d !in holders;
      } else if holders != {} {
        TwoHolders(holders);
        SortedHolders(holders);
      }
    }
    forall c, o
      ensures Verdict(probes) == Ok((c, o)) <==>
              && c in probes && probes[c] == Hit(o)
              && forall d :: d in probes && d != c ==> probes[d].Missing?
    {
      if c in probes && probes[c] == Hit(o) && forall d :: d in probes && d != c ==> probes[d].Missing? {
        OnlyHolder(probes, c);
      }
    }
  }

  lemma TwoHolders(holders: set<string>)
    requires holders != {} && |holders| != 1
    ensures exists c, d :: c in holders && d in holders && c != d
  {
    var c :| c in holders;
    assert |holders - {c}| == |holders| - 1;
    var d :| d in holders - {c};
  }

  lemma OnlyHolder(probes: map<string, Probe>, c: string)
    requires c in probes && probes[c].Hit?
    requires forall d :: d in probes && d != c ==> probes[d].Missing?
    ensures Holders(probes) == {c} && !AnyFailed(probes)
  {
  }

  lemma SortedHolders(holders: set<string>)
    ensures var names := SortStrings(Ordering(holders));
            Distinct(names) && forall c :: c in names <==> c in holders
  {
    var plain := Ordering(holders);
    var names := SortStrings(plain);
    PermutationOfDistinct(plain, names);
  }

  /** Locating with or without a pinned cluster. */
  ghost function Locate(f: Fleet, at: Name, pin: string, down: set<string>): Result<(string, Object), Error> {
    if pin == "" then Verdict(Probes(f, at, down))
    else if pin !in f then Err(BadRequest)
    else match ProbeOf(f, at, down, pin)
         case Hit(o) => Ok((pin, o))
         case Missing => Err(NotFound)
         case Failed => Err(Remote)
  }

  lemma LocateFinds(f: Fleet, at: Name, pin: string, down: set<string>)
    requires Locate(f, at, pin, down).Ok?
    ensures var (c, o) := Locate(f, at, pin, down).value;
            c in f && at in f[c] && o == f[c][at] && (pin != "" ==> c == pin)
  {
  }

  /** Exactly this member holds the object, and every member answered. */
  ghost predicate OnlyIn(f: Fleet, at: Name, down: set<string>, c: string, o: Object) {
    && c in f && at in f[c] && o == f[c][at]
    && forall d :: d in f ==> d !in down && (d != c ==> at !in f[d])
  }

  /** Without a pin: what each verdict says about what the members store. */
  lemma LocateMeans(f: Fleet, at: Name, down: set<string>)
    ensures forall c, o :: Locate(f, at, "", down) == Ok((c, o)) <==> OnlyIn(f, at, down, c, o)
    ensures Locate(f, at, "", down) == Err(NotFound) <==> forall d :: d in f ==> d !in down && at !in f[d]
    ensures Locate(f, at, "", down) == Err(Internal) <==> exists d :: d in f && d in down
    ensures Locate(f, at, "", down).Err? && Locate(f, at, "", down).error.Conflict? <==>
              && (forall d :: d in f ==> d !in down)
              && exists c, d :: c in f && d in f && c != d && at in f[c] && at in f[d]
  {
    hide Verdict;
    var probes := Probes(f, at, down);
    LocateFailsClosed(probes);
    assert forall d :: d in f <==> d in probes;
    assert forall d :: d in f ==> probes[d] == ProbeOf(f, at, down, d);
    assert forall d :: d in f ==> (d in Holders(probes) <==> d !in down && at in f[d]);
    HoldersAmong(f, at, down);
    forall c, o ensures Locate(f, at, "", down) == Ok((c, o)) <==> OnlyIn(f, at, down, c, o) {
      if c in f {
        assert probes[c] == ProbeOf(f, at, down, c);
      }
    }
  }

  lemma HoldersAmong(f: Fleet, at: Name, down: set<string>)
    ensures forall d :: d in Holders(Probes(f, at, down)) <==> d in f && d !in down && at in f[d]
    ensures AnyFailed(Probes(f, at, down)) <==> exists d :: d in f && d in down
  {
    var probes := Probes(f, at, down);
    assert forall d :: d in f ==> d in probes && probes[d] == ProbeOf(f, at, down, d);
  }

  /** With a pin only that member counts. */
  lemma LocatePinned(f: Fleet, at: Name, pin: string, down: set<string>)
    requires pin != ""
    ensures forall c, o :: Locate(f, at, pin, down) == Ok((c, o)) <==>
              c == pin && pin in f && pin !in down && at in f[pin] && o == f[pin][at]
    ensures Locate(f, at, pin, down) == Err(NotFound) <==> pin in f && pin !in down && at !in f[pin]
    ensures Locate(f, at, pin, down) == Err(Remote) <==> pin in f && pin in down
    ensures Locate(f, at, pin, down) == Err(BadRequest) <==> pin !in f
  {
  }

  // Reading many objects: reader.go, List.

  datatype Query = Query(scope: string, selector: Selector, fields: Object -> bool)

  predicate InScope(scope: string, n: Name) {
    scope == "" || n.namespace == scope
  }

  /** The names a member answers with when it is given these list options. */
  function Served(store: Store, scope: string, remote: Selector, fields: Object -> bool): set<Name> {
    set n | n in store && InScope(scope, n) && fields(store[n]) && Selects(remote, Entries(store[n].labels))
  }

  /** The names a member answers with for the pushed-down half of the query. */
  function Matching(store: Store, q: Query): set<Name> {
    Served(store, q.scope, RemoteSelector(q.selector), q.fields)
  }

  /** The simple form: stamp everything, then filter on the stamped object. */
  predicate Wants(f: Fleet, q: Query, c: string, n: Name) {
    && c in f && n in f[c] && InScope(q.scope, n) && q.fields(f[c][n])
    && Selects(q.selector, Entries(Stamped(f[c][n], c).labels))
  }

  ghost function Wanted(f: Fleet, q: Query): set<(string, Name)> {
    set c, n | c in f && n in f[c] && Wants(f, q, c, n) :: (c, n)
  }

  ghost predicate Within(f: Fleet, picked: set<(string, Name)>) {
    forall p :: p in picked ==> p.0 in f && p.1 in f[p.0]
  }

  ghost function Stamps(f: Fleet, picked: set<(string, Name)>): set<Object>
    requires Within(f, picked)
  {
    set p | p in picked :: Stamped(f[p.0][p.1], p.0)
  }

  ghost function Naive(f: Fleet, q: Query): set<Object> {
    Stamps(f, Wanted(f, q))
  }

  lemma PushdownPicksWanted(f: Fleet, q: Query, c: string, n: Name)
    requires c in f
    ensures (c, n) in Wanted(f, q) <==> Picks(q.selector, c) && n in Matching(f[c], q)
  {
    if n in f[c] {
      PushdownPreservesMeaning(q.selector, Entries(f[c][n].labels), c);
    }
    assert (c, n) in Wanted(f, q) <==> Wants(f, q, c, n);
  }

  /** A stamped object names the cluster and the object it came from. */
  lemma StampsInjective(f: Fleet, a: set<(string, Name)>, b: set<(string, Name)>)
    requires WellKeyed(f) && Within(f, a) && Within(f, b)
    ensures Stamps(f, a) <= Stamps(f, b) <==> a <= b
  {
    if Stamps(f, a) <= Stamps(f, b) {
      forall p | p in a ensures p in b {
        var o := Stamped(f[p.0][p.1], p.0);
        assert o in Stamps(f, a);
        var r :| r in b && o == Stamped(f[r.0][r.1], r.0);
        assert Entries(o.annotations)[CLUSTER] == p.0 == r.0;
        assert NameOf(o) == p.1 == r.1;
      }
    }
  }

  function ItemKey(o: Object): Key {
    [o.namespace, o.name, Annotation(o.annotations)]
  }

  /** Items are ordered by namespace, then by name, then by the cluster they name. */
  lemma ItemOrder(a: Object, b: Object)
    ensures KeyLe(ItemKey(a), ItemKey(b)) <==>
            if a.namespace != b.namespace then StrLe(a.namespace, b.namespace)
            else if a.name != b.name then StrLe(a.name, b.name)
            else StrLe(Annotation(a.annotations), Annotation(b.annotations))
  {
    var x, y := ItemKey(a), ItemKey(b);
    StrOrder(x[2], y[2]);
    assert KeyLe(x[1..][1..], y[1..][1..]) <==> StrLe(x[2], y[2]);
  }

  lemma StampsKeyed(f: Fleet, picked: set<(string, Name)>, items: seq<Object>)
    requires WellKeyed(f) && Within(f, picked)
    requires forall o :: o in items ==> o in Stamps(f, picked)
    ensures Keyed(items, ItemKey)
  {
  }

  /** Every selected member's matches fit in the per-member limit (0: no limit). */
  ghost predicate FitsLimit(f: Fleet, q: Query, limit: nat) {
    limit == 0 || forall c :: c in f && Picks(q.selector, c) ==> |Matching(f[c], q)| <= limit
  }

  ghost predicate SelectedDown(f: Fleet, q: Query, down: set<string>) {
    exists c :: c in f && Picks(q.selector, c) && c in down
  }

  /** A list answer: all or nothing over the selected members, sorted, and the naive set. */
  ghost predicate Listed(f: Fleet, q: Query, limit: nat, down: set<string>, r: Result<seq<Object>, Error>) {
    match r
    case Err(e) => e == Internal && SelectedDown(f, q, down)
    case Ok(items) =>
      && !SelectedDown(f, q, down)
      && Distinct(items) && Sorted(items, ItemKey)
      && Elements(items) <= Naive(f, q)
      && (Elements(items) == Naive(f, q) <==> FitsLimit(f, q, limit))
  }

  /** The answer is determined by the fleet and the query: no completion order shows. */
  lemma ListIsFunction(f: Fleet, q: Query, limit: nat, down: set<string>,
                       a: Result<seq<Object>, Error>, b: Result<seq<Object>, Error>)
    requires WellKeyed(f) && FitsLimit(f, q, limit)
    requires Listed(f, q, limit, down, a) && Listed(f, q, limit, down, b)
    ensures a == b
  {
    if a.Ok? {
      var wanted := Wanted(f, q);
      assert forall o :: o in a.value <==> o in Elements(a.value);
      assert forall o :: o in b.value <==> o in Elements(b.value);
      SameMembersPermute(a.value, b.value);
      StampsKeyed(f, wanted, a.value);
      SortedUnique(a.value, b.value, ItemKey);
    }
  }

  // Writing one object: writer.go, status.go.

  /** What a request body decodes to. */
  datatype AnyObject = Untyped(obj: Object) | Typed(annotations: Meta) | Opaque

  type Updater = Object -> Result<AnyObject, Error>

  /** A write to a member is carried out, or is lost before or after it took effect. */
  datatype WriteFault = NoFault | LostBefore | LostAfter

  datatype Faults = Faults(down: set<string>, rejected: bool, write: WriteFault)

  function NewObject(kind: string): Object {
    Object(kind, "", "", None, None, "", "")
  }

  function AsUnstructured(kind: string, a: AnyObject): Result<Object, Error> {
    if !a.Untyped? then Err(Internal)
    else Ok(if a.obj.kind == "" then a.obj.(kind := kind) else a.obj)
  }

  ghost function CreateTarget(f: Fleet, o: Object): Result<string, Error> {
    var named := Annotation(o.annotations);
    if named == "" && |f.Keys| != 1 then Err(BadRequest)
    else
      var c := if named == "" then Only(f.Keys) else named;
      if c in f then Ok(c) else Err(BadRequest)
  }

  predicate Addressable(scope: string, o: Object) {
    o.name != "" && o.namespace in {"", scope}
  }

  function Settle(store: Store, n: Name, o: Object, fault: WriteFault): (Store, Result<Object, Error>) {
    (store[n := o], if fault.LostAfter? then Err(Remote) else Ok(o))
  }

  function RemoteCreate(store: Store, scope: string, o: Object, fault: WriteFault): (Store, Result<Object, Error>) {
    var n := Name(scope, o.name);
    if fault.LostBefore? then (store, Err(Remote))
    else if !Addressable(scope, o) then (store, Err(Invalid))
    else if n in store then (store, Err(AlreadyExists))
    else Settle(store, n, o.(namespace := scope), fault)
  }

  function RemoteUpdate(store: Store, scope: string, o: Object, statusOnly: bool, fault: WriteFault)
    : (Store, Result<Object, Error>)
  {
    var n := Name(scope, o.name);
    if fault.LostBefore? then (store, Err(Remote))
    else if !Addressable(scope, o) then (store, Err(Invalid))
    else if n !in store then (store, Err(NotFound))
    else
      var stored := if statusOnly then store[n].(status := o.status) else o.(namespace := scope);
      Settle(store, n, stored, fault)
  }

  function RemoteDelete(store: Store, n: Name, fault: WriteFault): (Store, Option<Error>) {
    if fault.LostBefore? then (store, Some(Remote))
    else if n !in store then (store, Some(NotFound))
    else (store - {n}, if fault.LostAfter? then Some(Remote) else None)
  }

  datatype Outcome = Outcome(fleet: Fleet, resp: Result<Object, Error>, created: bool)

  function Refuse(f: Fleet, e: Error): Outcome {
    Outcome(f, Err(e), false)
  }

  function Respond(f: Fleet, c: string, written: (Store, Result<Object, Error>), creating: bool): Outcome
    requires c in f
  {
    var resp := written.1;
    Outcome(f[c := written.0], if resp.Ok? then Ok(Stamped(resp.value, c)) else resp, creating && resp.Ok?)
  }

  ghost function AfterCreate(f: Fleet, kind: string, scope: string, body: AnyObject, faults: Faults): Outcome {
    var u := AsUnstructured(kind, body);
    if u.Err? then Refuse(f, u.error)
    else
      var target := CreateTarget(f, u.value);
      if target.Err? then Refuse(f, target.error)
      else if faults.rejected then Refuse(f, Rejected)
      else Respond(f, target.value, RemoteCreate(f[target.value], scope, Stripped(u.value), faults.write), true)
  }

  /** The cluster the body would pin: the annotation the update puts on an empty object. */
  function BodyCluster(kind: string, updated: Updater): string {
    match updated(NewObject(kind))
    case Err(_) => ""
    case Ok(Untyped(o)) => Annotation(o.annotations)
    case Ok(Typed(annotations)) => Annotation(annotations)
    case Ok(Opaque) => ""
  }

  ghost function AfterUpdate(f: Fleet, kind: string, scope: string, name: string, updated: Updater,
                        statusOnly: bool, allowCreate: bool, faults: Faults): Outcome
  {
    var found := Locate(f, Name(scope, name), BodyCluster(kind, updated), faults.down);
    if found == Err(NotFound) && allowCreate && !statusOnly then
      var blank := updated(NewObject(kind));
      if blank.Err? then Refuse(f, blank.error) else AfterCreate(f, kind, scope, blank.value, faults)
    else if found.Err? then Refuse(f, found.error)
    else
      var (c, existing) := found.value;
      LocateFinds(f, Name(scope, name), BodyCluster(kind, updated), faults.down);
      var body := updated(Stamped(existing, c));
      if body.Err? then Refuse(f, body.error)
      else
        var u := AsUnstructured(kind, body.value);
        if u.Err? then Refuse(f, u.error)
        else if faults.rejected then Refuse(f, Rejected)
        else Respond(f, c, RemoteUpdate(f[c], scope, Stripped(u.value), statusOnly, faults.write), false)
  }

  ghost function AfterDelete(f: Fleet, scope: string, name: string, faults: Faults): Outcome {
    var at := Name(scope, name);
    var found := Locate(f, at, "", faults.down);
    if found.Err? then Refuse(f, found.error)
    else if faults.rejected then Refuse(f, Rejected)
    else
      var (c, existing) := found.value;
      LocateFinds(f, at, "", faults.down);
      var (store, failure) := RemoteDelete(f[c], at, faults.write);
      Outcome(f[c := store], if failure.Some? then Err(failure.value) else Ok(Stamped(existing, c)), false)
  }

  // Deleting many: writer.go, DeleteCollection.

  /** The store kept its objects as they were, except that some of the doomed ones are gone. */
  ghost predicate LostOnly(before: Store, after: Store, doomed: set<Name>) {
    && after.Keys <= before.Keys <= after.Keys + doomed
    && forall n :: n in after ==> after[n] == before[n]
  }

  /**
   Members outside the selection are untouched, selected members lose matching objects
   only, and a success lost every matching object and reports exactly those.
   */
  ghost predicate CollectionDeleted(f: Fleet, q: Query, f': Fleet, r: Result<seq<Object>, Error>) {
    && f'.Keys == f.Keys
    && (forall c :: c in f && !Picks(q.selector, c) ==> f'[c] == f[c])
    && (forall c :: c in f && Picks(q.selector, c) ==> LostOnly(f[c], f'[c], Matching(f[c], q)))
    && match r
       case Err(e) => e == Internal
       case Ok(items) =>
         && Distinct(items) && Elements(items) == Naive(f, q)
         && forall c :: c in f && Picks(q.selector, c) ==> f'[c] == f[c] - Matching(f[c], q)
  }

  /** After a success nothing the query wants is left, and everything else still is. */
  lemma DeleteCollectionIsExact(f: Fleet, q: Query, f': Fleet, items: seq<Object>)
    requires CollectionDeleted(f, q, f', Ok(items))
    ensures forall c, n :: c in f && n in f[c] ==>
              (n !in f'[c] <==> Wants(f, q, c, n)) && (n in f'[c] ==> f'[c][n] == f[c][n])
    ensures forall c, n :: c in f && n in f'[c] ==> n in f[c]
  {
    forall c, n | c in f && n in f[c]
      ensures (n !in f'[c] <==> Wants(f, q, c, n)) && (n in f'[c] ==> f'[c][n] == f[c][n])
    {
      PushdownPicksWanted(f, q, c, n);
      assert (c, n) in Wanted(f, q) <==> Wants(f, q, c, n);
    }
  }
}
