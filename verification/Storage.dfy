/**
 The proxy storage for one resource (pkg/apiserver/storage: reader.go, writer.go,
 status.go).  Workers of an errgroup finish in any order and, once one has failed,
 the others may be cut off: the loops below pick the next finisher freely and may
 skip it after a failure.
 */
module Storages {
  import opened Order
  import opened Metadata
  import opened Fleets

  /** o is the stamped form of the object called n in cluster c, and the selectors accept it. */
  ghost predicate Accepted(f: Fleet, selector: Selector, fields: Object -> bool, c: string, n: Name, o: Object) {
    && c in f && n in f[c] && o == Stamped(f[c][n], c)
    && fields(f[c][n]) && Selects(selector, Entries(o.labels))
  }

  /** The naive set, in words. */
  lemma NaiveMeans(f: Fleet, q: Query, items: seq<Object>)
    requires Elements(items) == Naive(f, q)
    ensures forall o :: o in items <==>
              exists c, n :: Accepted(f, q.selector, q.fields, c, n, o) && (q.scope != "" ==> n.namespace == q.scope)
  {
    forall o ensures o in items <==> exists c, n :: Accepted(f, q.selector, q.fields, c, n, o)
                                                    && (q.scope != "" ==> n.namespace == q.scope)
    {
      assert o in items <==> o in Elements(items);
      if o in items {
        var p :| p in Wanted(f, q) && o == Stamped(f[p.0][p.1], p.0);
        assert Wants(f, q, p.0, p.1) && Accepted(f, q.selector, q.fields, p.0, p.1, o);
      }
      forall c, n | Accepted(f, q.selector, q.fields, c, n, o) && (q.scope != "" ==> n.namespace == q.scope)
        ensures o in Naive(f, q)
      {
        assert Wants(f, q, c, n);
        assert (c, n) in Wanted(f, q);
      }
    }
  }

  // Where gathered items come from.

  ghost predicate Traced(f: Fleet, src: seq<(string, Name)>, items: seq<Object>) {
    && |src| == |items| && Distinct(src)
    && forall i :: 0 <= i < |src| ==>
         src[i].0 in f && src[i].1 in f[src[i].0] && items[i] == Stamped(f[src[i].0][src[i].1], src[i].0)
  }

  ghost function Pairs(c: string, names: seq<Name>): (r: seq<(string, Name)>)
    ensures |r| == |names| && forall i :: 0 <= i < |names| ==> r[i] == (c, names[i])
  {
    seq(|names|, i requires 0 <= i < |names| => (c, names[i]))
  }

  ghost function Part(picked: set<(string, Name)>, c: string): set<Name> {
    set p | p in picked && p.0 == c :: p.1
  }

  lemma TracedAppend(f: Fleet, src: seq<(string, Name)>, items: seq<Object>, c: string, names: seq<Name>,
                     list: seq<Object>)
    requires Traced(f, src, items) && c in f && Distinct(names)
    requires forall p :: p in src ==> p.0 != c
    requires |list| == |names|
    requires forall i :: 0 <= i < |names| ==> names[i] in f[c] && list[i] == Stamped(f[c][names[i]], c)
    ensures Traced(f, src + Pairs(c, names), items + list)
    ensures Part(Elements(src + Pairs(c, names)), c) == Elements(names)
    ensures forall d :: d != c ==> Part(Elements(src + Pairs(c, names)), d) == Part(Elements(src), d)
  {
  }

  lemma TracedStamps(f: Fleet, src: seq<(string, Name)>, items: seq<Object>)
    requires WellKeyed(f) && Traced(f, src, items)
    ensures Within(f, Elements(src)) && Distinct(items) && Elements(items) == Stamps(f, Elements(src))
  {
    forall i, j | 0 <= i < j < |items| ensures items[i] != items[j] {
      assert NameOf(items[i]) == src[i].1 && Entries(items[i].annotations)[CLUSTER] == src[i].0;
      assert NameOf(items[j]) == src[j].1 && Entries(items[j].annotations)[CLUSTER] == src[j].0;
    }
    forall o ensures o in Elements(items) <==> o in Stamps(f, Elements(src)) {
      if o in items {
        var i :| 0 <= i < |items| && items[i] == o;
        assert src[i] in Elements(src);
      }
      if o in Stamps(f, Elements(src)) {
        var p :| p in Elements(src) && o == Stamped(f[p.0][p.1], p.0);
        var i :| 0 <= i < |src| && src[i] == p;
        assert items[i] == o;
      }
    }
  }

  /** How many of n matches a member returns under a limit. */
  function Quota(n: nat, limit: nat): nat {
    if limit == 0 || n <= limit then n else limit
  }

  lemma SubsetOfSameSize<T>(a: set<T>, b: set<T>)
    requires a <= b
    ensures |a| <= |b| && (|a| == |b| ==> a == b)
  {
    assert |b - a| == |b| - |a|;
    if |a| == |b| {
      assert b - a == {};
    }
  }

  /** What was gathered is everything wanted exactly when every member's share fits the limit. */
  lemma GatheredAll(f: Fleet, q: Query, limit: nat, picked: set<(string, Name)>)
    requires picked <= Wanted(f, q)
    requires forall c :: c in f && Picks(q.selector, c) ==>
               |Part(picked, c)| == Quota(|Matching(f[c], q)|, limit)
    ensures picked == Wanted(f, q) <==> FitsLimit(f, q, limit)
  {
    forall c | c in f && Picks(q.selector, c)
      ensures Part(picked, c) <= Matching(f[c], q)
      ensures picked == Wanted(f, q) ==> Part(picked, c) == Matching(f[c], q)
    {
      forall n ensures (n in Part(picked, c) ==> n in Matching(f[c], q))
                    && (picked == Wanted(f, q) && n in Matching(f[c], q) ==> n in Part(picked, c)) {
        PushdownPicksWanted(f, q, c, n);
        if n in Part(picked, c) { assert (c, n) in picked; }
        if (c, n) in picked { assert (c, n).1 in Part(picked, c); }
      }
    }
    if FitsLimit(f, q, limit) {
      forall p | p in Wanted(f, q) ensures p in picked {
        PushdownPicksWanted(f, q, p.0, p.1);
        SubsetOfSameSize(Part(picked, p.0), Matching(f[p.0], q));
        assert p.1 in Part(picked, p.0);
      }
    }
  }

  // A fan-out as far as it has come: `todo` are the members that have not answered yet,
  // `bad` those that answer with an error.

  ghost predicate Gathering(f: Fleet, q: Query, limit: nat, bad: set<string>, todo: set<string>,
                            failed: bool, src: seq<(string, Name)>, items: seq<Object>)
  {
    && (forall c :: c in todo ==> c in f && Picks(q.selector, c))
    && (failed ==> SelectedDown(f, q, bad))
    && Traced(f, src, items)
    && (forall p :: p in src ==> p.0 !in todo && p in Wanted(f, q))
    && (!failed ==> forall c :: c in f && Picks(q.selector, c) && c !in todo ==>
          c !in bad && |Part(Elements(src), c)| == Quota(|Matching(f[c], q)|, limit))
  }

  lemma GatherFrom(f: Fleet, q: Query, limit: nat, bad: set<string>, todo: set<string>, failed: bool,
                   src: seq<(string, Name)>, items: seq<Object>, c: string, names: seq<Name>, list: seq<Object>)
    requires Gathering(f, q, limit, bad, todo, failed, src, items) && c in todo && c !in bad
    requires Distinct(names) && Elements(names) <= Matching(f[c], q)
    requires |Elements(names)| == Quota(|Matching(f[c], q)|, limit)
    requires |list| == |names|
    requires forall i :: 0 <= i < |names| ==> names[i] in f[c] && list[i] == Stamped(f[c][names[i]], c)
    ensures Gathering(f, q, limit, bad, todo - {c}, failed, src + Pairs(c, names), items + list)
  {
    TracedAppend(f, src, items, c, names, list);
    forall n | n in names ensures (c, n) in Wanted(f, q) {
      assert n in Elements(names);
      PushdownPicksWanted(f, q, c, n);
    }
  }

  lemma GatherFailed(f: Fleet, q: Query, limit: nat, bad: set<string>, todo: set<string>, failed: bool,
                     src: seq<(string, Name)>, items: seq<Object>, c: string)
    requires Gathering(f, q, limit, bad, todo, failed, src, items) && c in todo && (failed || c in bad)
    ensures Gathering(f, q, limit, bad, todo - {c}, true, src, items)
  {
  }

  /** The items that name cluster c. */
  ghost function ItemsFrom(items: seq<Object>, c: string): set<Object> {
    set o | o in items && Annotation(o.annotations) == c
  }

  lemma {:induction false} StampedSize(store: Store, names: set<Name>, c: string)
    requires forall n :: n in names ==> n in store && NameOf(store[n]) == n
    ensures |set n | n in names :: Stamped(store[n], c)| == |names|
  {
    if names != {} {
      var n :| n in names;
      var rest := names - {n};
      StampedSize(store, rest, c);
      var o := Stamped(store[n], c);
      forall m | m in rest ensures Stamped(store[m], c) != o {
        assert NameOf(Stamped(store[m], c)) == m && NameOf(o) == n;
      }
      assert (set m | m in names :: Stamped(store[m], c)) == (set m | m in rest :: Stamped(store[m], c)) + {o};
    }
  }

  lemma TracedItem(f: Fleet, src: seq<(string, Name)>, items: seq<Object>, c: string, i: nat)
    requires Traced(f, src, items) && c in f && i < |items| && Annotation(items[i].annotations) == c
    ensures var n := src[i].1; n in Part(Elements(src), c) && n in f[c] && items[i] == Stamped(f[c][n], c)
  {
    assert src[i] in Elements(src) && src[i].0 == c;
  }

  lemma TracedName(f: Fleet, src: seq<(string, Name)>, items: seq<Object>, c: string, n: Name)
    requires Traced(f, src, items) && c in f && n in Part(Elements(src), c)
    ensures n in f[c] && Stamped(f[c][n], c) in ItemsFrom(items, c)
  {
    assert (c, n) in Elements(src);
    var i :| 0 <= i < |src| && src[i] == (c, n);
    assert items[i] == Stamped(f[c][n], c);
  }

  /** A traced list has as many items of a cluster as sources in it. */
  lemma TracedSize(f: Fleet, src: seq<(string, Name)>, items: seq<Object>, c: string)
    requires WellKeyed(f) && Traced(f, src, items) && c in f
    ensures |ItemsFrom(items, c)| == |Part(Elements(src), c)|
  {
    hide Traced, Stamped, Annotation, Part, Elements;
    var names := Part(Elements(src), c);
    forall n | n in names ensures n in f[c] && Stamped(f[c][n], c) in ItemsFrom(items, c) {
      TracedName(f, src, items, c, n);
    }
    StampedSize(f[c], names, c);
    var images := set n | n in names :: Stamped(f[c][n], c);
    forall o | o in ItemsFrom(items, c) ensures o in images {
      var i :| 0 <= i < |items| && items[i] == o;
      TracedItem(f, src, items, c, i);
    }
    assert ItemsFrom(items, c) == images;
  }

  lemma GatheringDone(f: Fleet, q: Query, limit: nat, bad: set<string>, src: seq<(string, Name)>, items: seq<Object>)
    requires WellKeyed(f) && Gathering(f, q, limit, bad, {}, false, src, items)
    ensures !SelectedDown(f, q, bad) && Distinct(items) && Elements(items) <= Naive(f, q)
    ensures Elements(items) == Naive(f, q) <==> FitsLimit(f, q, limit)
    ensures forall c :: c in f && Picks(q.selector, c) ==>
              |ItemsFrom(items, c)| == Quota(|Matching(f[c], q)|, limit)
  {
    forall c | c in f && Picks(q.selector, c) ensures |ItemsFrom(items, c)| == Quota(|Matching(f[c], q)|, limit) {
      TracedSize(f, src, items, c);
    }
    TracedStamps(f, src, items);
    StampsInjective(f, Elements(src), Wanted(f, q));
    StampsInjective(f, Wanted(f, q), Elements(src));
    GatheredAll(f, q, limit, Elements(src));
  }

  ghost predicate Trimming(before: Fleet, q: Query, now: Fleet, todo: set<string>, failed: bool) {
    && now.Keys == before.Keys
    && (forall c :: c in now && (!Picks(q.selector, c) || c in todo) ==> now[c] == before[c])
    && (forall c :: c in now && Picks(q.selector, c) ==> LostOnly(before[c], now[c], Matching(before[c], q)))
    && (!failed ==> forall c :: c in now && Picks(q.selector, c) && c !in todo ==>
          now[c] == before[c] - Matching(before[c], q))
  }

  ghost predicate SameElsewhere(now: Fleet, now': Fleet, c: string) {
    now'.Keys == now.Keys && forall d :: d in now && d != c ==> now'[d] == now[d]
  }

  lemma TrimFrom(before: Fleet, q: Query, now: Fleet, todo: set<string>, failed: bool, c: string, now': Fleet, ok: bool)
    requires Trimming(before, q, now, todo, failed) && c in todo && c in now && Picks(q.selector, c)
    requires SameElsewhere(now, now', c) && LostOnly(before[c], now'[c], Matching(before[c], q))
    requires ok ==> now'[c] == before[c] - Matching(before[c], q)
    ensures Trimming(before, q, now', todo - {c}, failed || !ok)
  {
  }

  lemma TodoIn(before: Fleet, q: Query, limit: nat, bad: set<string>, todo: set<string>, failed: bool,
               src: seq<(string, Name)>, items: seq<Object>, now: Fleet, c: string)
    requires Gathering(before, q, limit, bad, todo, failed, src, items)
    requires Trimming(before, q, now, todo, failed) && c in todo
    ensures c in before && c in now && now[c] == before[c] && Picks(q.selector, c)
    ensures LostOnly(before[c], before[c], Matching(before[c], q))
    ensures SameElsewhere(now, now, c)
  {
  }

  lemma ListStarts(f: Fleet, q: Query, limit: nat, bad: set<string>, todo: set<string>)
    requires forall c :: c in todo <==> c in f && Picks(q.selector, c)
    ensures Gathering(f, q, limit, bad, todo, false, [], [])
  {
  }

  lemma GatherIn(f: Fleet, q: Query, limit: nat, bad: set<string>, todo: set<string>, failed: bool,
                 src: seq<(string, Name)>, items: seq<Object>, c: string)
    requires Gathering(f, q, limit, bad, todo, failed, src, items) && c in todo
    ensures c in f
  {
  }

  /** The end of a fan-out of lists, and what it answers. */
  lemma ListDone(f: Fleet, q: Query, limit: nat, bad: set<string>, failed: bool,
                 src: seq<(string, Name)>, items: seq<Object>, sorted: seq<Object>)
    requires WellKeyed(f) && Gathering(f, q, limit, bad, {}, failed, src, items)
    requires multiset(sorted) == multiset(items) && Sorted(sorted, ItemKey)
    ensures Listed(f, q, limit, bad, if failed then Err(Internal) else Ok(sorted))
    ensures !failed && limit == 0 ==> forall o :: o in sorted <==>
              exists c, n :: Accepted(f, q.selector, q.fields, c, n, o) && (q.scope != "" ==> n.namespace == q.scope)
    ensures !failed ==> forall c :: c in f && Picks(q.selector, c) ==>
              |ItemsFrom(sorted, c)| == Quota(|Matching(f[c], q)|, limit)
  {
    hide Traced, Picks, Accepted;
    if !failed {
      GatheringDone(f, q, limit, bad, src, items);
      PermutationOfDistinct(items, sorted);
      assert Elements(sorted) == Elements(items);
      if limit == 0 {
        NaiveMeans(f, q, sorted);
      }
      forall c ensures ItemsFrom(sorted, c) == ItemsFrom(items, c) {
      }
    }
  }

  lemma CollectionStarts(f: Fleet, q: Query, bad: set<string>, todo: set<string>)
    requires forall c :: c in todo <==> c in f && Picks(q.selector, c)
    ensures Gathering(f, q, 0, bad, todo, false, [], []) && Trimming(f, q, f, todo, false)
  {
  }

  /** The end of a fan-out of deletes: what is answered, what is gone, and what is spared. */
  lemma CollectionDone(before: Fleet, q: Query, now: Fleet, bad: set<string>, failed: bool,
                       src: seq<(string, Name)>, items: seq<Object>)
    requires WellKeyed(before) && Trimming(before, q, now, {}, failed)
    requires Gathering(before, q, 0, bad, {}, failed, src, items)
    ensures CollectionDeleted(before, q, now, if failed then Err(Internal) else Ok(items))
    ensures failed <==> SelectedDown(before, q, bad)
    ensures now.Keys == before.Keys
    ensures forall c, n :: c in before && n in before[c] && q.scope != "" && n.namespace != q.scope ==>
              n in now[c] && now[c][n] == before[c][n]
    ensures !failed ==> forall c, n :: c in before && n in before[c] ==>
              (n !in now[c] <==>
                 && Accepted(before, q.selector, q.fields, c, n, Stamped(before[c][n], c))
                 && (q.scope != "" ==> n.namespace == q.scope))
  {
    hide Traced, Stamped, Selects, Picks;
    if !failed {
      GatheringDone(before, q, 0, bad, src, items);
      DeleteCollectionIsExact(before, q, now, items);
    }
    forall c, n | c in before && n in before[c] && q.scope != "" && n.namespace != q.scope
      ensures n in now[c] && now[c][n] == before[c][n]
    {
      assert n !in Matching(before[c], q);
    }
  }

  /** A member's List call: any of its matches, up to the limit, in any order. */
  method RemoteList(store: Store, scope: string, remote: Selector, fields: Object -> bool, limit: nat)
    returns (items: array<Object>, ghost names: seq<Name>)
    ensures fresh(items) && items.Length == |names| && Distinct(names)
    ensures Elements(names) <= Served(store, scope, remote, fields)
    ensures |names| == |Elements(names)| == Quota(|Served(store, scope, remote, fields)|, limit)
    ensures forall i :: 0 <= i < |names| ==> names[i] in store && items[i] == store[names[i]]
  {
    ghost var served := Served(store, scope, remote, fields);
    var todo := Served(store, scope, remote, fields);
    var found: seq<Object> := [];
    names := [];
    while todo != {} && (limit == 0 || |found| < limit)
      invariant todo <= served && |names| + |todo| == |served|
      invariant |found| == |names| && Distinct(names)
      invariant limit == 0 || |found| <= limit
      invariant forall i :: 0 <= i < |names| ==>
                  names[i] in served && names[i] !in todo && found[i] == store[names[i]]
      decreases todo
    {
      var n :| n in todo;
      names := names + [n];
      found := found + [store[n]];
      todo := todo - {n};
    }
    DistinctSize(names);
    items := new Object[|found|](i requires 0 <= i < |found| => found[i]);
  }

  lemma {:induction false} DistinctSize<T(!new)>(s: seq<T>)
    requires Distinct(s)
    ensures |Elements(s)| == |s|
  {
    if s != [] {
      DistinctSize(s[1..]);
      assert s[0] !in s[1..];
      assert Elements(s) == {s[0]} + Elements(s[1..]);
    }
  }

  /** Stamps the items of a list, in place. */
  method StampAll(items: array<Object>, cluster: string)
    modifies items
    ensures forall i :: 0 <= i < items.Length ==> items[i] == Stamped(old(items[i]), cluster)
  {
    for k := 0 to items.Length
      invariant forall i :: 0 <= i < k ==> items[i] == Stamped(old(items[i]), cluster)
      invariant forall i :: k <= i < items.Length ==> items[i] == old(items[i])
    {
      items[k] := Stamped(items[k], cluster);
    }
  }

  /** One worker of List: list a member by the remote half of q and stamp what it returned. */
  method ListFrom(store: Store, c: string, q: Query, remote: Selector, limit: nat)
    returns (items: seq<Object>, ghost names: seq<Name>)
    requires forall labels :: Selects(remote, labels) <==> Selects(RemoteSelector(q.selector), labels)
    ensures |items| == |names| && Distinct(names) && Elements(names) <= Matching(store, q)
    ensures |names| == |Elements(names)| == Quota(|Matching(store, q)|, limit)
    ensures forall i :: 0 <= i < |names| ==> names[i] in store && items[i] == Stamped(store[names[i]], c)
  {
    var list, listed := RemoteList(store, q.scope, remote, q.fields, limit);
    assert Served(store, q.scope, remote, q.fields) == Matching(store, q);
    StampAll(list, c);
    items, names := list[..], listed;
  }

  lemma SortedHoldersAgree(names: seq<string>, holders: set<string>)
    requires Distinct(names) && forall c :: c in names <==> c in holders
    ensures SortStrings(names) == SortStrings(Ordering(holders))
  {
    var a, b := SortStrings(names), SortStrings(Ordering(holders));
    SameMembersPermute(names, Ordering(holders));
    forall x, y | x in a && y in a && StringKey(x) == StringKey(y) ensures x == y {
      assert StringKey(x)[0] == StringKey(y)[0];
    }
    assert Keyed(a, StringKey);
    SortedUnique(a, b, StringKey);
  }

  /** A decoded request body. */
  datatype Body = Decoded(u: Unstructured) | DecodedTyped(annotations: Meta) | DecodedOpaque

  function BodyObjects(b: Body): set<Unstructured> {
    if b.Decoded? then {b.u} else {}
  }

  function BodyValue(b: Body): AnyObject
    reads BodyObjects(b)
  {
    match b
    case Decoded(u) => Untyped(u.Value())
    case DecodedTyped(annotations) => Typed(annotations)
    case DecodedOpaque => Opaque
  }

  /** A located object is the one asked for, in an object of its own. */
  ghost predicate Finds(r: Result<(string, Unstructured), Error>, want: Result<(string, Object), Error>)
    reads if r.Ok? then {r.value.1} else {}
  {
    match r
    case Ok((c, u)) => want == Ok((c, u.Value()))
    case Err(e) => want == Err(e)
  }

  /** The answer to a get: what was located, stamped with where. */
  function GetAnswer(found: Result<(string, Object), Error>): Result<Object, Error> {
    match found
    case Ok((c, o)) => Ok(Stamped(o, c))
    case Err(e) => Err(e)
  }

  /** A heap response carries the value the specification asks for. */
  ghost predicate Carries(r: Result<Unstructured, Error>, want: Result<Object, Error>)
    reads if r.Ok? then {r.value} else {}
  {
    match r
    case Ok(u) => want == Ok(u.Value())
    case Err(e) => want == Err(e)
  }

  class Storage {
    const kind: string
    const namespaced: bool

    /** The members serving the resource and what each of them stores. */
    var fleet: Fleet

    constructor (kind: string, namespaced: bool, fleet: Fleet)
      ensures this.kind == kind && this.namespaced == namespaced && this.fleet == fleet
    {
      this.kind, this.namespaced, this.fleet := kind, namespaced, fleet;
    }

    /** The namespace the member's client is scoped to; contracts say outright when it is which. */
    function Scope(namespace: string): string {
      if namespaced && namespace != "" then namespace else ""
    }

    /** Finds a name in exactly one member, or in the pinned one. */
    method Locate(namespace: string, name: string, pin: string, down: set<string>)
      returns (r: Result<(string, Unstructured), Error>)
      ensures namespaced && namespace != "" ==> Finds(r, Fleets.Locate(fleet, Name(namespace, name), pin, down))
      ensures !namespaced || namespace == "" ==> Finds(r, Fleets.Locate(fleet, Name("", name), pin, down))
      ensures r.Ok? ==> fresh(r.value.1)
    {
      var at := Name(Scope(namespace), name);
      if pin != "" {
        if pin !in fleet {
          return Err(BadRequest);
        }
        match ProbeOf(fleet, at, down, pin) {
          case Hit(o) =>
            var u := new Unstructured(o);
            return Ok((pin, u));
          case Missing => return Err(NotFound);
          case Failed => return Err(Remote);
        }
      }

      var verdict := ProbeAll(at, down);
      if verdict.Err? {
        return Err(verdict.error);
      }
      var u := new Unstructured(verdict.value.1);
      return Ok((verdict.value.0, u));
    }

    /** Asks every member, in whatever order they answer. */
    method ProbeAll(at: Name, down: set<string>) returns (r: Result<(string, Object), Error>)
      ensures r == Verdict(Probes(fleet, at, down))
    {
      ghost var probes := Probes(fleet, at, down);
      var hits: seq<Object> := [];
      var names: seq<string> := [];
      var failed := false;
      var todo := fleet.Keys;
      while todo != {}
        invariant todo <= fleet.Keys && |hits| == |names|
        invariant failed ==> AnyFailed(probes)
        invariant !failed ==> forall c :: c in fleet && c !in todo ==> !probes[c].Failed?
        invariant !failed ==> forall c :: c in names <==> c in Holders(probes) && c !in todo
        invariant !failed ==> Distinct(names)
        invariant !failed ==> forall i :: 0 <= i < |hits| ==> names[i] in fleet && probes[names[i]] == Hit(hits[i])
        decreases todo
      {
        var c :| c in todo;
        todo := todo - {c};
        var cutOff: bool := *;
        if failed && cutOff {
          continue;
        }
        match ProbeOf(fleet, at, down, c) {
          case Missing =>
          case Failed =>
            assert probes[c].Failed?;
            failed := true;
          case Hit(o) =>
            hits := hits + [o];
            names := names + [c];
        }
      }
      if failed {
        return Err(Internal);
      }
      assert forall c :: c in names <==> c in Holders(probes);
      if |hits| == 0 {
        return Err(NotFound);
      }
      DistinctSize(names);
      assert Elements(names) == Holders(probes);
      if |hits| == 1 {
        assert names[0] in Holders(probes);
        return Ok((names[0], hits[0]));
      }
      SortedHoldersAgree(names, Holders(probes));
      return Err(Conflict(SortStrings(names)));
    }

    method Get(namespace: string, name: string, down: set<string>) returns (r: Result<Unstructured, Error>)
      ensures namespaced && namespace != "" ==>
                Carries(r, GetAnswer(Fleets.Locate(fleet, Name(namespace, name), "", down)))
      ensures !namespaced || namespace == "" ==>
                Carries(r, GetAnswer(Fleets.Locate(fleet, Name("", name), "", down)))
      ensures r.Ok? ==> fresh(r.value)
    {
      var found := Locate(namespace, name, "", down);
      if found.Err? {
        return Err(found.error);
      }
      var (cluster, obj) := found.value;
      obj.Stamp(cluster);
      return Ok(obj);
    }

    /**
     Fans out over the selected members and merges the results.  Without a limit the items are
     the stamped objects the selectors accept, those of one namespace or of all; with one, each
     selected member contributes as many as match, up to the limit.
     */
    method List(namespace: string, selector: Selector, fields: Object -> bool, limit: nat, down: set<string>)
      returns (r: Result<seq<Object>, Error>)
      requires WellKeyed(fleet)
      ensures namespaced && namespace != "" ==> Listed(fleet, Query(namespace, selector, fields), limit, down, r)
      ensures !namespaced || namespace == "" ==> Listed(fleet, Query("", selector, fields), limit, down, r)
      ensures r.Ok? && limit == 0 ==> forall o :: o in r.value <==>
                exists c, n :: Accepted(fleet, selector, fields, c, n, o)
                            && (namespaced && namespace != "" ==> n.namespace == namespace)
      ensures r.Ok? && limit > 0 ==> forall c :: c in fleet && Picks(selector, c) ==>
                var q := Query(if namespaced then namespace else "", selector, fields);
                |ItemsFrom(r.value, c)| == if |Matching(fleet[c], q)| < limit then |Matching(fleet[c], q)| else limit
    {
      hide Gathering, Matching, Listed, Accepted, ItemsFrom, Selects, MatchesCluster;
      var q := Query(Scope(namespace), selector, fields);
      var remote, clusterReqs := SplitClusterSelector(selector);
      var items: seq<Object> := [];
      ghost var src: seq<(string, Name)> := [];
      var failed := false;
      var todo := set c | c in fleet && MatchesCluster(clusterReqs, c);
      ListStarts(fleet, q, limit, down, todo);
      while todo != {}
        invariant Gathering(fleet, q, limit, down, todo, failed, src, items)
        decreases todo
      {
        var c :| c in todo;
        GatherIn(fleet, q, limit, down, todo, failed, src, items, c);
        var cutOff: bool := *;
        if c in down || (failed && cutOff) {
          GatherFailed(fleet, q, limit, down, todo, failed, src, items, c);
          failed := true;
        } else {
          var list, names := ListFrom(fleet[c], c, q, remote, limit);
          GatherFrom(fleet, q, limit, down, todo, failed, src, items, c, names, list);
          src := src + Pairs(c, names);
          items := items + list;
        }
        todo := todo - {c};
      }
      var sorted := SortBy(items, ItemKey);
      ListDone(fleet, q, limit, down, failed, src, items, sorted);
      if failed {
        return Err(Internal);
      }
      return Ok(sorted);
    }

    /** The member the annotation names, or the only one there is. */
    method Route(u: Unstructured) returns (r: Result<string, Error>)
      ensures r == CreateTarget(fleet, u.Value())
    {
      var cluster := Annotation(u.annotations);
      if cluster == "" {
        if |fleet.Keys| != 1 {
          return Err(BadRequest);
        }
        var only :| only in fleet.Keys;
        cluster := only;
        assert only in {Only(fleet.Keys)};
      }
      return if cluster in fleet then Ok(cluster) else Err(BadRequest);
    }

    /** Stores the stripped object at the member it is routed to. */
    method Create(namespace: string, body: Body, faults: Faults) returns (r: Result<Unstructured, Error>)
      modifies this`fleet, BodyObjects(body)`kind
      ensures namespaced && namespace != "" ==>
                var out := AfterCreate(old(fleet), kind, namespace, old(BodyValue(body)), faults);
                fleet == out.fleet && Carries(r, out.resp)
      ensures !namespaced || namespace == "" ==>
                var out := AfterCreate(old(fleet), kind, "", old(BodyValue(body)), faults);
                fleet == out.fleet && Carries(r, out.resp)
      ensures r.Ok? ==> fresh(r.value)
    {
      hide RemoteCreate, Stripped, Stamped, Annotation;
      if !body.Decoded? {
        return Err(Internal);
      }
      var u := body.u;
      if u.kind == "" {
        u.kind := kind;
      }
      var target := Route(u);
      if target.Err? {
        return Err(target.error);
      }
      var cluster := target.value;
      if faults.rejected {
        return Err(Rejected);
      }
      var copy := u.DeepCopy();
      copy.Strip();
      var (store, answer) := RemoteCreate(fleet[cluster], Scope(namespace), copy.Value(), faults.write);
      fleet := fleet[cluster := store];
      if answer.Err? {
        return Err(answer.error);
      }
      var created := new Unstructured(answer.value);
      created.Stamp(cluster);
      return Ok(created);
    }

    method Decode(a: AnyObject) returns (b: Body)
      ensures fresh(BodyObjects(b)) && BodyValue(b) == a
    {
      match a {
        case Untyped(o) =>
          var u := new Unstructured(o);
          b := Decoded(u);
        case Typed(annotations) => b := DecodedTyped(annotations);
        case Opaque => b := DecodedOpaque;
      }
    }

    /** Writes to the member owning the existing object; the status path never creates. */
    method Update(namespace: string, name: string, updated: Updater, statusOnly: bool, allowCreate: bool,
                  faults: Faults)
      returns (r: Result<Unstructured, Error>, created: bool)
      modifies this`fleet
      ensures namespaced && namespace != "" ==>
                var out := AfterUpdate(old(fleet), kind, namespace, name, updated, statusOnly, allowCreate, faults);
                fleet == out.fleet && Carries(r, out.resp) && created == out.created
      ensures !namespaced || namespace == "" ==>
                var out := AfterUpdate(old(fleet), kind, "", name, updated, statusOnly, allowCreate, faults);
                fleet == out.fleet && Carries(r, out.resp) && created == out.created
    {
      var found := Locate(namespace, name, BodyCluster(kind, updated), faults.down);
      if found == Err(NotFound) && allowCreate && !statusOnly {
        var blank := updated(NewObject(kind));
        if blank.Err? {
          return Err(blank.error), false;
        }
        var body := Decode(blank.value);
        var fromCreate := Create(namespace, body, faults);
        return fromCreate, fromCreate.Ok?;
      }
      if found.Err? {
        return Err(found.error), false;
      }
      var (cluster, existing) := found.value;
      LocateFinds(fleet, Name(Scope(namespace), name), BodyCluster(kind, updated), faults.down);
      existing.Stamp(cluster);
      var obj := updated(existing.Value());
      if obj.Err? {
        return Err(obj.error), false;
      }
      var u := AsUnstructured(kind, obj.value);
      if u.Err? {
        return Err(u.error), false;
      }
      if faults.rejected {
        return Err(Rejected), false;
      }
      var copy := new Unstructured(u.value);
      copy.Strip();
      var (store, answer) := RemoteUpdate(fleet[cluster], Scope(namespace), copy.Value(), statusOnly, faults.write);
      fleet := fleet[cluster := store];
      if answer.Err? {
        return Err(answer.error), false;
      }
      var result := new Unstructured(answer.value);
      result.Stamp(cluster);
      return Ok(result), false;
    }

    /** Deletes from the member owning the object; ambiguous names conflict. */
    method Delete(namespace: string, name: string, faults: Faults) returns (r: Result<Unstructured, Error>)
      modifies this`fleet
      ensures namespaced && namespace != "" ==>
                var out := AfterDelete(old(fleet), namespace, name, faults);
                fleet == out.fleet && Carries(r, out.resp)
      ensures !namespaced || namespace == "" ==>
                var out := AfterDelete(old(fleet), "", name, faults);
                fleet == out.fleet && Carries(r, out.resp)
    {
      var found := Locate(namespace, name, "", faults.down);
      if found.Err? {
        return Err(found.error);
      }
      if faults.rejected {
        return Err(Rejected);
      }
      var (cluster, existing) := found.value;
      LocateFinds(fleet, Name(Scope(namespace), name), "", faults.down);
      var (store, failure) := RemoteDelete(fleet[cluster], Name(Scope(namespace), name), faults.write);
      fleet := fleet[cluster := store];
      if failure.Some? {
        return Err(failure.value);
      }
      existing.Stamp(cluster);
      return Ok(existing);
    }

    /** One worker of DeleteCollection: list, delete, stamp what was listed. */
    method DeleteFrom(c: string, q: Query, remote: Selector, down: bool, torn: bool)
      returns (ok: bool, items: seq<Object>, ghost names: seq<Name>)
      requires c in fleet
      requires forall labels :: Selects(remote, labels) <==> Selects(RemoteSelector(q.selector), labels)
      modifies this`fleet
      ensures ok <==> !down && !torn
      ensures SameElsewhere(old(fleet), fleet, c)
      ensures LostOnly(old(fleet)[c], fleet[c], Matching(old(fleet)[c], q))
      ensures ok ==> && fleet[c] == old(fleet)[c] - Matching(old(fleet)[c], q)
                     && Distinct(names) && Elements(names) == Matching(old(fleet)[c], q)
                     && |items| == |names| == |Elements(names)|
                     && forall i :: 0 <= i < |names| ==>
                          names[i] in old(fleet)[c] && items[i] == Stamped(old(fleet)[c][names[i]], c)
    {
      ok, items, names := false, [], [];
      if down {
        return;
      }
      var list, listed := ListFrom(fleet[c], c, q, remote, 0);
      var doomed := Served(fleet[c], q.scope, remote, q.fields);
      assert doomed == Matching(fleet[c], q);
      if torn {
        var gone :| gone <= doomed;
        fleet := fleet[c := fleet[c] - gone];
        return;
      }
      SubsetOfSameSize(Elements(listed), doomed);
      fleet := fleet[c := fleet[c] - doomed];
      ok, items, names := true, list, listed;
    }

    /**
     Lists and then deletes the matching objects of every selected member.  A member in
     `down` cannot be listed; one in `torn` fails its delete call part way.  Objects of other
     namespaces stay as they are, and a success leaves none that the selectors accept.
     */
    method DeleteCollection(namespace: string, selector: Selector, fields: Object -> bool,
                            down: set<string>, torn: set<string>)
      returns (r: Result<seq<Object>, Error>)
      requires WellKeyed(fleet)
      modifies this`fleet
      ensures namespaced && namespace != "" ==>
                var q := Query(namespace, selector, fields);
                CollectionDeleted(old(fleet), q, fleet, r) && (r.Err? <==> SelectedDown(old(fleet), q, down + torn))
      ensures !namespaced || namespace == "" ==>
                var q := Query("", selector, fields);
                CollectionDeleted(old(fleet), q, fleet, r) && (r.Err? <==> SelectedDown(old(fleet), q, down + torn))
      ensures fleet.Keys == old(fleet).Keys
      ensures forall c, n :: c in old(fleet) && n in old(fleet)[c] &&
                             namespaced && namespace != "" && n.namespace != namespace ==>
                n in fleet[c] && fleet[c][n] == old(fleet)[c][n]
      ensures r.Ok? ==> forall c, n :: c in old(fleet) && n in old(fleet)[c] ==>
                (n !in fleet[c] <==>
                   && Accepted(old(fleet), selector, fields, c, n, Stamped(old(fleet)[c][n], c))
                   && (namespaced && namespace != "" ==> n.namespace == namespace))
    {
      hide Gathering, Trimming, Traced, Matching, LostOnly, Selects, MatchesCluster, CollectionDeleted;
      var q := Query(Scope(namespace), selector, fields);
      ghost var before := fleet;
      var remote, clusterReqs := SplitClusterSelector(selector);
      var deleted: seq<Object> := [];
      ghost var src: seq<(string, Name)> := [];
      var failed := false;
      var todo := set c | c in fleet && MatchesCluster(clusterReqs, c);
      CollectionStarts(before, q, down + torn, todo);
      while todo != {}
        invariant Gathering(before, q, 0, down + torn, todo, failed, src, deleted)
        invariant Trimming(before, q, fleet, todo, failed)
        decreases todo
      {
        var c :| c in todo;
        TodoIn(before, q, 0, down + torn, todo, failed, src, deleted, fleet, c);
        var cutOff: bool := *;
        if failed && cutOff {
          TrimFrom(before, q, fleet, todo, failed, c, fleet, false);
          GatherFailed(before, q, 0, down + torn, todo, failed, src, deleted, c);
        } else {
          ghost var was := fleet;
          var ok, list, names := DeleteFrom(c, q, remote, c in down, c in torn);
          TrimFrom(before, q, was, todo, failed, c, fleet, ok);
          if ok {
            GatherFrom(before, q, 0, down + torn, todo, failed, src, deleted, c, names, list);
            src := src + Pairs(c, names);
            deleted := deleted + list;
          } else {
            GatherFailed(before, q, 0, down + torn, todo, failed, src, deleted, c);
            failed := true;
          }
        }
        todo := todo - {c};
      }
      CollectionDone(before, q, fleet, down + torn, failed, src, deleted);
      if failed {
        return Err(Internal);
      }
      return Ok(deleted);
    }
  }
}
