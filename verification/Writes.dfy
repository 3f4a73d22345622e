/**
 What the write paths promise: which member a write reaches, what survives a
 read-modify-write, when an upsert creates, and what members hold after any run.
 */
module Writes {
  import opened Order
  import opened Metadata
  import opened Fleets

  /** f' is f except perhaps for the object called n in cluster c. */
  ghost predicate OnlyAt(f: Fleet, f': Fleet, c: string, n: Name) {
    && f'.Keys == f.Keys
    && forall d, m :: d in f && (d != c || m != n) ==>
         (m in f'[d] <==> m in f[d]) && (m in f[d] ==> f'[d][m] == f[d][m])
  }

  lemma CreateFrame(f: Fleet, kind: string, scope: string, body: AnyObject, faults: Faults)
    returns (c: string, n: Name)
    ensures OnlyAt(f, AfterCreate(f, kind, scope, body, faults).fleet, c, n)
  {
    c, n := "", Name("", "");
    var u := AsUnstructured(kind, body);
    if u.Ok? && CreateTarget(f, u.value).Ok? {
      c, n := CreateTarget(f, u.value).value, Name(scope, u.value.name);
    }
  }

  /** Where a create goes: the member the annotation names, or the only one. */
  ghost predicate Targets(f: Fleet, o: Object, c: string) {
    c in f && (Annotation(o.annotations) == c != "" || (Annotation(o.annotations) == "" && f.Keys == {c}))
  }

  /**
   Without faults a create succeeds exactly if it has a target and that lacks the name; the
   target then holds the object without the aggregator's metadata, and the answer names it.
   */
  lemma CreateRoutes(f: Fleet, kind: string, scope: string, o: Object, c: string)
    requires o.name != "" && o.namespace in {"", scope}
    ensures var at := Name(scope, o.name);
            var out := AfterCreate(f, kind, scope, Untyped(o), Faults({}, false, NoFault));
            && (out.resp.Ok? ==> exists d :: Targets(f, o, d))
            && (Targets(f, o, c) ==> (out.resp.Ok? <==> at !in f[c]))
            && (Targets(f, o, c) && out.resp.Ok? ==>
                  && at in out.fleet[c] && out.resp.value == Stamped(out.fleet[c][at], c)
                  && SameObject(out.fleet[c][at],
                                Stripped(o).(namespace := scope, kind := if o.kind == "" then kind else o.kind)))
  {
    var u := AsUnstructured(kind, Untyped(o)).value;
    if CreateTarget(f, u).Ok? {
      var d := CreateTarget(f, u).value;
      assert Targets(f, o, d);
    }
  }

  /**
   An update touches one name in one member: the member where the object was located,
   whatever cluster the updated object names.
   */
  lemma UpdateLandsWhereLocated(f: Fleet, kind: string, scope: string, name: string, updated: Updater,
                                statusOnly: bool, allowCreate: bool, faults: Faults)
    returns (c: string, n: Name)
    ensures var out := AfterUpdate(f, kind, scope, name, updated, statusOnly, allowCreate, faults);
            var found := Locate(f, Name(scope, name), BodyCluster(kind, updated), faults.down);
            && OnlyAt(f, out.fleet, c, n)
            && (found.Ok? ==> c == found.value.0 && !out.created)
            && (found.Ok? && out.resp.Ok? ==> NamesSource(out.resp.value, found.value.0))
  {
    c, n := "", Name("", "");
    var found := Locate(f, Name(scope, name), BodyCluster(kind, updated), faults.down);
    if found.Ok? {
      c := found.value.0;
      var body := updated(Stamped(found.value.1, c));
      if body.Ok? && AsUnstructured(kind, body.value).Ok? {
        n := Name(scope, AsUnstructured(kind, body.value).value.name);
      }
    } else if found.error == NotFound && allowCreate && !statusOnly && updated(NewObject(kind)).Ok? {
      c, n := CreateFrame(f, kind, scope, updated(NewObject(kind)).value, faults);
    }
  }

  /** What a successful update of an existing object stores: the new object stripped, or only its status. */
  lemma UpdateStores(f: Fleet, kind: string, scope: string, name: string, updated: Updater,
                     statusOnly: bool, allowCreate: bool, faults: Faults)
    ensures var out := AfterUpdate(f, kind, scope, name, updated, statusOnly, allowCreate, faults);
            var found := Locate(f, Name(scope, name), BodyCluster(kind, updated), faults.down);
            found.Ok? && out.resp.Ok? ==>
              var (c, existing) := found.value;
              var body := updated(Stamped(existing, c));
              && body.Ok? && body.value.Untyped? && c in f && c in out.fleet
              && var o, n := body.value.obj, Name(scope, body.value.obj.name);
              && n in f[c] && n in out.fleet[c] && out.resp.value == Stamped(out.fleet[c][n], c)
              && if statusOnly then out.fleet[c][n] == f[c][n].(status := o.status)
                 else SameObject(out.fleet[c][n],
                                 Stripped(o).(namespace := scope, kind := if o.kind == "" then kind else o.kind))
  {
    var found := Locate(f, Name(scope, name), BodyCluster(kind, updated), faults.down);
    if found.Ok? {
      LocateFinds(f, Name(scope, name), BodyCluster(kind, updated), faults.down);
    }
  }

  lemma DeleteFrame(f: Fleet, scope: string, name: string, faults: Faults)
    returns (c: string)
    ensures var out := AfterDelete(f, scope, name, faults);
            && OnlyAt(f, out.fleet, c, Name(scope, name))
            && (out.resp.Ok? ==>
                  && c in f && Name(scope, name) in f[c] && Name(scope, name) !in out.fleet[c]
                  && out.resp.value == Stamped(f[c][Name(scope, name)], c)
                  && forall d :: d in f && d != c ==> Name(scope, name) !in f[d])
  {
    c := "";
    var found := Locate(f, Name(scope, name), "", faults.down);
    if found.Ok? {
      c := found.value.0;
      LocateFinds(f, Name(scope, name), "", faults.down);
      OnlyHolderOf(f, Name(scope, name), faults.down, c);
    }
  }

  /** What is located without a pin is in no other member. */
  lemma OnlyHolderOf(f: Fleet, at: Name, down: set<string>, c: string)
    requires var found := Locate(f, at, "", down); found.Ok? && found.value.0 == c
    ensures forall d :: d in f && d != c ==> at !in f[d]
  {
    var probes := Probes(f, at, down);
    LocateFailsClosed(probes);
    assert forall d :: d in f ==> d in probes && probes[d] == ProbeOf(f, at, down, d);
  }

  // Which answer a write gives.

  /** A write that is refused: this answer, and nothing changed. */
  ghost predicate Refused(f: Fleet, out: Outcome, e: Error) {
    out.resp == Err(e) && out.fleet == f && !out.created
  }

  /**
   A delete succeeds without faults exactly if one member has the name, conflicts if several do,
   and finds nothing if none does.  A rejected one changes nothing; one whose call is lost fails
   and may or may not have taken effect.
   */
  lemma DeleteOutcome(f: Fleet, scope: string, name: string, faults: Faults)
    ensures var at, out := Name(scope, name), AfterDelete(f, scope, name, faults);
            && ((exists d :: d in f && d in faults.down) ==> Refused(f, out, Internal))
            && ((forall d :: d in f ==> d !in faults.down && at !in f[d]) ==> Refused(f, out, NotFound))
            && ((forall d :: d in f ==> d !in faults.down) &&
                (exists c, d :: c in f && d in f && c != d && at in f[c] && at in f[d]) ==>
                  out.fleet == f && out.resp.Err? && out.resp.error.Conflict?)
            && forall c, o :: OnlyIn(f, at, faults.down, c, o) ==>
                 if faults.rejected then Refused(f, out, Rejected)
                 else match faults.write
                      case NoFault => out.fleet == f[c := f[c] - {at}] && out.resp == Ok(Stamped(o, c))
                      case LostBefore => Refused(f, out, Remote)
                      case LostAfter => out.fleet == f[c := f[c] - {at}] && out.resp == Err(Remote)
  {
    hide Verdict;
    LocateMeans(f, Name(scope, name), faults.down);
  }

  /**
   What becomes of a create: a body of another type, no target, rejection, a lost call, a name
   that cannot be used or is taken are all errors that leave the fleet alone; a lost answer is
   an error although the create took effect.
   */
  lemma CreateOutcome(f: Fleet, kind: string, scope: string, body: AnyObject, faults: Faults)
    ensures var out := AfterCreate(f, kind, scope, body, faults);
            && (!body.Untyped? ==> Refused(f, out, Internal))
            && (body.Untyped? && (forall c :: !Targets(f, body.obj, c)) ==> Refused(f, out, BadRequest))
            && (body.Untyped? ==> forall c :: Targets(f, body.obj, c) ==>
                  var o := body.obj;
                  if faults.rejected then Refused(f, out, Rejected)
                  else if faults.write.LostBefore? then Refused(f, out, Remote)
                  else if o.name == "" || o.namespace !in {"", scope} then Refused(f, out, Invalid)
                  else if Name(scope, o.name) in f[c] then Refused(f, out, AlreadyExists)
                  else
                    && out.fleet == AfterCreate(f, kind, scope, body, Faults({}, false, NoFault)).fleet
                    && (if faults.write.LostAfter? then out.resp == Err(Remote) else out.resp.Ok? && out.created))
  {
    if body.Untyped? {
      var o := AsUnstructured(kind, body).value;
      assert o.annotations == body.obj.annotations;
      forall c | Targets(f, body.obj, c) ensures CreateTarget(f, o) == Ok(c) {
      }
      if CreateTarget(f, o).Ok? {
        assert Targets(f, body.obj, CreateTarget(f, o).value);
      }
    }
  }

  /**
   What becomes of an update of an existing object: it fails, leaving the fleet alone, if the new
   object cannot be made or is of another type, or if it is rejected.  Otherwise, without faults,
   it succeeds exactly if the new object names an existing object of that member.
   */
  lemma UpdateOutcome(f: Fleet, kind: string, scope: string, name: string, updated: Updater,
                      statusOnly: bool, allowCreate: bool, faults: Faults)
    requires Locate(f, Name(scope, name), BodyCluster(kind, updated), faults.down).Ok?
    ensures var (c, existing) := Locate(f, Name(scope, name), BodyCluster(kind, updated), faults.down).value;
            var out := AfterUpdate(f, kind, scope, name, updated, statusOnly, allowCreate, faults);
            match updated(Stamped(existing, c))
            case Err(e) => Refused(f, out, e)
            case Ok(Untyped(o)) =>
              c in f &&
              if faults.rejected then Refused(f, out, Rejected)
              else if faults.write.LostBefore? then Refused(f, out, Remote)
              else if o.name == "" || o.namespace !in {"", scope} then Refused(f, out, Invalid)
              else if Name(scope, o.name) !in f[c] then Refused(f, out, NotFound)
              else
                && !out.created
                && (if faults.write.LostAfter? then out.resp == Err(Remote) else out.resp.Ok?)
                && out.fleet == AfterUpdate(f, kind, scope, name, updated, statusOnly, allowCreate,
                                            faults.(write := NoFault)).fleet
            case _ => Refused(f, out, Internal)
  {
    hide Verdict;
    LocateFinds(f, Name(scope, name), BodyCluster(kind, updated), faults.down);
    assert f == f[Locate(f, Name(scope, name), BodyCluster(kind, updated), faults.down).value.0 :=
                  f[Locate(f, Name(scope, name), BodyCluster(kind, updated), faults.down).value.0]];
  }

  /** If it cannot be located the error is passed on, unless the object may be created. */
  lemma UpdateNotLocated(f: Fleet, kind: string, scope: string, name: string, updated: Updater,
                         statusOnly: bool, allowCreate: bool, faults: Faults)
    requires Locate(f, Name(scope, name), BodyCluster(kind, updated), faults.down).Err?
    ensures var e := Locate(f, Name(scope, name), BodyCluster(kind, updated), faults.down).error;
            var out := AfterUpdate(f, kind, scope, name, updated, statusOnly, allowCreate, faults);
            if e == NotFound && allowCreate && !statusOnly then
              match updated(Object(kind, "", "", None, None, "", ""))
              case Err(e) => Refused(f, out, e)
              case Ok(body) => out == AfterCreate(f, kind, scope, body, faults)
            else Refused(f, out, e)
  {
  }

  /** An update whose object names a cluster, typed or not, touches no other member. */
  lemma UpdateStaysAtPin(f: Fleet, kind: string, scope: string, name: string, updated: Updater,
                         statusOnly: bool, allowCreate: bool, faults: Faults, body: AnyObject, c: string)
    requires updated(Object(kind, "", "", None, None, "", "")) == Ok(body) && c != ""
    requires match body
             case Untyped(o) => Annotation(o.annotations) == c
             case Typed(annotations) => Annotation(annotations) == c
             case Opaque => false
    ensures var out := AfterUpdate(f, kind, scope, name, updated, statusOnly, allowCreate, faults);
            && out.fleet.Keys == f.Keys && (forall d :: d in f && d != c ==> out.fleet[d] == f[d])
            && (c !in f ==> Refused(f, out, BadRequest))
  {
    LocatePinned(f, Name(scope, name), c, faults.down);
  }

  /** The updater that sends back the object that was got. */
  ghost predicate SendsBack(updated: Updater, o: Object, c: string) {
    forall x :: updated(x) == Ok(Untyped(Stamped(o, c)))
  }

  lemma WriteBackTo(later: Fleet, kind: string, scope: string, o: Object, c: string, updated: Updater,
                    statusOnly: bool, allowCreate: bool, faults: Faults)
    requires c != "" && o.namespace == scope && SendsBack(updated, o, c)
    ensures var at := NameOf(o);
            var out := AfterUpdate(later, kind, scope, o.name, updated, statusOnly, allowCreate, faults);
            && OnlyAt(later, out.fleet, c, at)
            && (faults == Faults({}, false, NoFault) && o.name != "" ==>
                  (out.resp.Ok? <==> c in later && (at in later[c] || (allowCreate && !statusOnly))))
  {
    hide OnlyAt, AfterCreate, RemoteUpdate, Stripped;
    assert BodyCluster(kind, updated) == c;
    KeptAt(later, c, NameOf(o));
    if c in later {
      if NameOf(o) in later[c] {
        UpdateBack(later, kind, scope, o, c, statusOnly, faults);
      } else {
        CreateBack(later, kind, scope, o, c, faults);
      }
    }
  }

  lemma KeptAt(f: Fleet, c: string, n: Name)
    ensures OnlyAt(f, f, c, n)
  {
  }

  lemma CreateBack(later: Fleet, kind: string, scope: string, o: Object, c: string, faults: Faults)
    requires c != "" && o.namespace == scope && c in later && NameOf(o) !in later[c]
    ensures var out := AfterCreate(later, kind, scope, Untyped(Stamped(o, c)), faults);
            && OnlyAt(later, out.fleet, c, NameOf(o))
            && (!faults.rejected && faults.write.NoFault? && o.name != "" ==> out.resp.Ok?)
  {
    hide OnlyAt, RemoteCreate, Respond, Stripped;
    var u := AsUnstructured(kind, Untyped(Stamped(o, c))).value;
    assert CreateTarget(later, u) == Ok(c);
    KeptAt(later, c, NameOf(o));
    RespondCreated(later, scope, u, c, faults.write);
  }

  lemma RespondCreated(f: Fleet, scope: string, u: Object, c: string, fault: WriteFault)
    requires u.namespace == scope && c in f && NameOf(u) !in f[c]
    ensures var out := Respond(f, c, RemoteCreate(f[c], scope, Stripped(u), fault), true);
            OnlyAt(f, out.fleet, c, NameOf(u)) && (fault.NoFault? && u.name != "" ==> out.resp.Ok?)
  {
  }

  lemma UpdateBack(later: Fleet, kind: string, scope: string, o: Object, c: string, statusOnly: bool, faults: Faults)
    requires o.namespace == scope && c in later && NameOf(o) in later[c]
    ensures var u := AsUnstructured(kind, Untyped(Stamped(o, c))).value;
            var out := Respond(later, c, RemoteUpdate(later[c], scope, Stripped(u), statusOnly, faults.write), false);
            && OnlyAt(later, out.fleet, c, NameOf(o))
            && (faults.write.NoFault? && o.name != "" ==> out.resp.Ok?)
  {
  }

  lemma WriteBackStores(later: Fleet, kind: string, scope: string, o: Object, c: string, updated: Updater,
                        allowCreate: bool, faults: Faults)
    requires c != "" && o.namespace == scope && SendsBack(updated, o, c)
    ensures var at := NameOf(o);
            var out := AfterUpdate(later, kind, scope, o.name, updated, false, allowCreate, faults);
            out.resp.Ok? ==>
              && c in out.fleet && at in out.fleet[c]
              && SameObject(out.fleet[c][at], Stripped(Stamped(o, c)).(kind := if o.kind == "" then kind else o.kind))
  {
    assert BodyCluster(kind, updated) == c;
    if c in later && NameOf(o) in later[c] && c !in faults.down {
      UpdateStores(later, kind, scope, o.name, updated, false, allowCreate, faults);
    }
  }

  /**
   Read-modify-write: an object obtained from Get on fleet f, written back unchanged to any
   later fleet, reaches the cluster Get found it in and no other, even if other members
   acquired the name meanwhile, and it leaves there what was read.  If that cluster no longer
   has it, only an update that may create puts it back, and there.
   */
  lemma WriteBack(f: Fleet, later: Fleet, kind: string, scope: string, name: string, down: set<string>,
                  updated: Updater, statusOnly: bool, allowCreate: bool, faults: Faults)
    requires WellKeyed(f) && "" !in f
    requires var found := Locate(f, Name(scope, name), "", down);
             found.Ok? && SendsBack(updated, found.value.1, found.value.0)
    ensures var at := Name(scope, name);
            var (c, o) := Locate(f, at, "", down).value;
            var out := AfterUpdate(later, kind, scope, name, updated, statusOnly, allowCreate, faults);
            && OnlyAt(later, out.fleet, c, at)
            && (out.resp.Ok? && !statusOnly && Clean(o) ==>
                  && c in out.fleet && at in out.fleet[c]
                  && SameObject(out.fleet[c][at], o.(kind := if o.kind == "" then kind else o.kind)))
            && (faults == Faults({}, false, NoFault) && name != "" ==>
                  (out.resp.Ok? <==> c in later && (at in later[c] || (allowCreate && !statusOnly))))
  {
    LocateFinds(f, Name(scope, name), "", down);
    var (c, o) := Locate(f, Name(scope, name), "", down).value;
    WriteBackTo(later, kind, scope, o, c, updated, statusOnly, allowCreate, faults);
    WriteBackStores(later, kind, scope, o, c, updated, allowCreate, faults);
    StripUndoesStamp(o, c);
  }

  /** Some object of this name appeared in cluster c. */
  ghost predicate Gained(f: Fleet, f': Fleet, c: string, n: Name) {
    c in f && c in f' && n !in f[c] && n in f'[c]
  }

  /**
   An upsert creates only where its pin points, and only if that member lacks the name;
   without a pin only if a single member serves the resource and lacks the name, so
   that no name can become ambiguous.
   */
  lemma UpsertAgreesWithPin(f: Fleet, kind: string, scope: string, name: string, updated: Updater,
                            faults: Faults, c: string, n: Name)
    requires var out := AfterUpdate(f, kind, scope, name, updated, false, true, faults);
             Gained(f, out.fleet, c, n)
    ensures var pin := BodyCluster(kind, updated);
            var at := Name(scope, name);
            && at !in f[c] && n.namespace == scope
            && (pin != "" ==> c == pin)
            && (pin == "" ==> f.Keys == {c})
  {
    hide Verdict;
    var pin := BodyCluster(kind, updated);
    var at := Name(scope, name);
    var found := Locate(f, at, pin, faults.down);
    LocateFailsClosed(Probes(f, at, faults.down));
    if found.Ok? {
      LocateFinds(f, at, pin, faults.down);
    } else {
      var blank := updated(NewObject(kind));
      assert blank.Ok? && blank.value.Untyped?;
      var u := AsUnstructured(kind, blank.value).value;
      assert Annotation(u.annotations) == pin;
      assert Probes(f, at, faults.down)[c] == ProbeOf(f, at, faults.down, c);
    }
  }

  /** And with nothing in the way it does create there. */
  lemma UpsertCreates(f: Fleet, kind: string, scope: string, name: string, updated: Updater, o: Object, c: string)
    requires name != "" && o.name == name && o.namespace in {"", scope}
    requires updated(NewObject(kind)) == Ok(Untyped(o))
    requires Targets(f, o, c)
    ensures var out := AfterUpdate(f, kind, scope, name, updated, false, true, Faults({}, false, NoFault));
            out.created <==> Name(scope, name) !in f[c]
    ensures var out := AfterUpdate(f, kind, scope, name, updated, false, true, Faults({}, false, NoFault));
            out.created ==> Gained(f, out.fleet, c, Name(scope, name)) && NamesSource(out.resp.value, c)
  {
    LocateByPin(f, Name(scope, name), BodyCluster(kind, updated), c);
    if Name(scope, name) !in f[c] {
      var u := AsUnstructured(kind, Untyped(o)).value;
      assert CreateTarget(f, u) == Ok(c);
      StripUndoesStamp(u, c);
    }
  }

  lemma LocateByPin(f: Fleet, at: Name, pin: string, c: string)
    requires c in f && (pin == c != "" || (pin == "" && f.Keys == {c}))
    ensures Locate(f, at, pin, {}) == if at in f[c] then Ok((c, f[c][at])) else Err(NotFound)
  {
    var probes := Probes(f, at, {});
    LocateFailsClosed(probes);
    assert forall d :: d in probes ==> d in f.Keys && probes[d] == ProbeOf(f, at, {}, d);
  }

  // Whole runs.

  /** A request; `scope` is the namespace it is made in. */
  datatype Request =
    | Get(scope: string, name: string)
    | List(query: Query, limit: nat)
    | Create(scope: string, body: AnyObject)
    | Update(scope: string, name: string, updated: Updater, statusOnly: bool, allowCreate: bool)
    | Delete(scope: string, name: string)
    | DeleteCollection(query: Query)
      // somebody else writes to, or deletes from, a member directly
    | Direct(cluster: string, at: Name, obj: Option<Object>)

  function Single(r: Result<Object, Error>): Result<seq<Object>, Error> {
    if r.Ok? then Ok([r.value]) else Err(r.error)
  }

  /** Request, under these faults, may take fleet f to f' and answer r. */
  ghost predicate Serves(kind: string, f: Fleet, req: Request, faults: Faults,
                         f': Fleet, r: Result<seq<Object>, Error>)
  {
    match req
    case Get(scope, name) =>
      var found := Locate(f, Name(scope, name), "", faults.down);
      f' == f && r == if found.Ok? then Ok([Stamped(found.value.1, found.value.0)]) else Err(found.error)
    case List(q, limit) => f' == f && Listed(f, q, limit, faults.down, r)
    case Create(scope, body) =>
      var out := AfterCreate(f, kind, scope, body, faults);
      f' == out.fleet && r == Single(out.resp)
    case Update(scope, name, updated, statusOnly, allowCreate) =>
      var out := AfterUpdate(f, kind, scope, name, updated, statusOnly, allowCreate, faults);
      f' == out.fleet && r == Single(out.resp)
    case Delete(scope, name) =>
      var out := AfterDelete(f, scope, name, faults);
      f' == out.fleet && r == Single(out.resp)
    case DeleteCollection(q) => CollectionDeleted(f, q, f', r)
    case Direct(c, n, obj) =>
      && c in f && r == Ok([])
      && match obj
         case None => f' == f[c := f[c] - {n}]
         case Some(o) => Clean(o) && NameOf(o) == n && f' == f[c := f[c][n := o]]
  }

  ghost predicate CleanFleet(f: Fleet) {
    forall c, n :: c in f && n in f[c] ==> Clean(f[c][n])
  }

  /** The object is the stamped form of one that cluster c held before or holds after. */
  ghost predicate FromCluster(f: Fleet, f': Fleet, o: Object, c: string) {
    && c in f && c in f' && NamesSource(o, c)
    && exists n :: (n in f[c] && o == Stamped(f[c][n], c)) || (n in f'[c] && o == Stamped(f'[c][n], c))
  }

  ghost predicate TrulySourced(f: Fleet, f': Fleet, r: Result<seq<Object>, Error>) {
    r.Ok? ==> forall o :: o in r.value ==> exists c :: FromCluster(f, f', o, c)
  }

  /** The member either kept its store or put the clean object o under its name n. */
  ghost predicate PutOrKept(store: Store, written: (Store, Result<Object, Error>), n: Name, o: Object) {
    || (written.0 == store && written.1.Err?)
    || (Clean(o) && NameOf(o) == n && written.0 == store[n := o] && (written.1.Ok? ==> written.1.value == o))
  }

  ghost predicate CleanOutcome(f: Fleet, out: Outcome) {
    && WellKeyed(out.fleet) && CleanFleet(out.fleet) && out.fleet.Keys == f.Keys
    && TrulySourced(f, out.fleet, Single(out.resp))
  }

  lemma CleanRespond(f: Fleet, c: string, written: (Store, Result<Object, Error>), creating: bool, n: Name, o: Object)
    requires WellKeyed(f) && CleanFleet(f) && c in f && PutOrKept(f[c], written, n, o)
    ensures CleanOutcome(f, Respond(f, c, written, creating))
  {
    var out := Respond(f, c, written, creating);
    if out.resp.Ok? {
      StripUndoesStamp(o, c);
      assert out.resp.value == Stamped(out.fleet[c][n], c);
      assert FromCluster(f, out.fleet, out.resp.value, c);
    }
  }

  lemma CleanCreate(f: Fleet, kind: string, scope: string, body: AnyObject, faults: Faults)
    requires WellKeyed(f) && CleanFleet(f)
    ensures CleanOutcome(f, AfterCreate(f, kind, scope, body, faults))
  {
    var u := AsUnstructured(kind, body);
    if u.Ok? && CreateTarget(f, u.value).Ok? {
      var c := CreateTarget(f, u.value).value;
      var o := Stripped(u.value);
      StripUndoesStamp(u.value, c);
      CleanRespond(f, c, RemoteCreate(f[c], scope, o, faults.write), true, Name(scope, o.name), o.(namespace := scope));
    }
  }

  lemma CleanRemoteUpdate(f: Fleet, scope: string, c: string, u: Object, statusOnly: bool, fault: WriteFault)
    requires WellKeyed(f) && CleanFleet(f) && c in f
    ensures CleanOutcome(f, Respond(f, c, RemoteUpdate(f[c], scope, Stripped(u), statusOnly, fault), false))
  {
    var o := Stripped(u);
    StripUndoesStamp(u, c);
    var n := Name(scope, o.name);
    var stored := if statusOnly && n in f[c] then f[c][n].(status := o.status) else o.(namespace := scope);
    CleanRespond(f, c, RemoteUpdate(f[c], scope, o, statusOnly, fault), false, n, stored);
  }

  lemma CleanUpdate(f: Fleet, kind: string, scope: string, name: string, updated: Updater,
                    statusOnly: bool, allowCreate: bool, faults: Faults)
    requires WellKeyed(f) && CleanFleet(f)
    ensures CleanOutcome(f, AfterUpdate(f, kind, scope, name, updated, statusOnly, allowCreate, faults))
  {
    hide Verdict;
    var found := Locate(f, Name(scope, name), BodyCluster(kind, updated), faults.down);
    if found.Ok? {
      LocateFinds(f, Name(scope, name), BodyCluster(kind, updated), faults.down);
      var (c, existing) := found.value;
      var body := updated(Stamped(existing, c));
      if body.Ok? && AsUnstructured(kind, body.value).Ok? {
        CleanRemoteUpdate(f, scope, c, AsUnstructured(kind, body.value).value, statusOnly, faults.write);
      }
    } else if found.error == NotFound && allowCreate && !statusOnly && updated(NewObject(kind)).Ok? {
      CleanCreate(f, kind, scope, updated(NewObject(kind)).value, faults);
    }
  }

  lemma SourcedStamps(f: Fleet, f': Fleet, picked: set<(string, Name)>, items: seq<Object>)
    requires f'.Keys == f.Keys && Within(f, picked)
    requires Elements(items) <= Stamps(f, picked)
    ensures TrulySourced(f, f', Ok(items))
  {
    forall o | o in items ensures exists c :: FromCluster(f, f', o, c) {
      assert o in Elements(items);
      var p :| p in picked && o == Stamped(f[p.0][p.1], p.0);
      assert FromCluster(f, f', o, p.0);
    }
  }

  lemma CleanDelete(f: Fleet, scope: string, name: string, faults: Faults)
    requires WellKeyed(f) && CleanFleet(f)
    ensures CleanOutcome(f, AfterDelete(f, scope, name, faults))
  {
    var out := AfterDelete(f, scope, name, faults);
    var found := Locate(f, Name(scope, name), "", faults.down);
    if found.Ok? {
      LocateFinds(f, Name(scope, name), "", faults.down);
      if out.resp.Ok? { assert FromCluster(f, out.fleet, out.resp.value, found.value.0); }
    }
  }

  lemma CleanDeleteCollection(f: Fleet, q: Query, f': Fleet, r: Result<seq<Object>, Error>)
    requires WellKeyed(f) && CleanFleet(f) && CollectionDeleted(f, q, f', r)
    ensures WellKeyed(f') && CleanFleet(f') && TrulySourced(f, f', r)
  {
    forall c, n | c in f' && n in f'[c] ensures n in f[c] && f'[c][n] == f[c][n] {
      assert Picks(q.selector, c) ==> LostOnly(f[c], f'[c], Matching(f[c], q));
    }
    if r.Ok? { SourcedStamps(f, f', Wanted(f, q), r.value); }
  }

  lemma CleanStep(kind: string, f: Fleet, req: Request, faults: Faults,
                  f': Fleet, r: Result<seq<Object>, Error>)
    requires WellKeyed(f) && CleanFleet(f)
    requires Serves(kind, f, req, faults, f', r)
    ensures WellKeyed(f') && CleanFleet(f') && f'.Keys == f.Keys && TrulySourced(f, f', r)
  {
    match req
    case Get(scope, name) =>
      if r.Ok? {
        LocateFinds(f, Name(scope, name), "", faults.down);
        assert FromCluster(f, f', r.value[0], Locate(f, Name(scope, name), "", faults.down).value.0);
      }
    case List(q, limit) =>
      if r.Ok? { SourcedStamps(f, f', Wanted(f, q), r.value); }
    case Create(scope, body) => CleanCreate(f, kind, scope, body, faults);
    case Update(scope, name, updated, statusOnly, allowCreate) =>
      CleanUpdate(f, kind, scope, name, updated, statusOnly, allowCreate, faults);
    case Delete(scope, name) => CleanDelete(f, scope, name, faults);
    case DeleteCollection(q) => CleanDeleteCollection(f, q, f', r);
    case Direct(c, n, obj) =>
  }

  /** A run: request i takes fleets[i] to fleets[i + 1] and answers answers[i]. */
  ghost predicate IsRun(kind: string, fleets: seq<Fleet>, reqs: seq<Request>,
                        faults: seq<Faults>, answers: seq<Result<seq<Object>, Error>>)
  {
    && |fleets| == |reqs| + 1 && |faults| == |reqs| && |answers| == |reqs|
    && forall i :: 0 <= i < |reqs| ==>
         Serves(kind, fleets[i], reqs[i], faults[i], fleets[i + 1], answers[i])
  }

  /**
   Members stay clean over every run, in whatever namespaces its requests are made, and every
   object a client ever receives names, in annotation and label, the member it really came from.
   */
  lemma {:induction false} MembersStayClean(kind: string, fleets: seq<Fleet>, reqs: seq<Request>,
                                            faults: seq<Faults>, answers: seq<Result<seq<Object>, Error>>, k: nat)
    requires IsRun(kind, fleets, reqs, faults, answers) && k < |fleets|
    requires WellKeyed(fleets[0]) && CleanFleet(fleets[0])
    ensures WellKeyed(fleets[k]) && CleanFleet(fleets[k]) && fleets[k].Keys == fleets[0].Keys
    ensures forall i :: 0 <= i < k ==> TrulySourced(fleets[i], fleets[i + 1], answers[i])
  {
    if k > 0 {
      MembersStayClean(kind, fleets, reqs, faults, answers, k - 1);
      CleanStep(kind, fleets[k - 1], reqs[k - 1], faults[k - 1], fleets[k], answers[k - 1]);
    }
  }
}
