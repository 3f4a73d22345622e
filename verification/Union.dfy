/**
 Merging the members' resources into the served set (pkg/apiserver/discovery.go, Union).
 Go iterates over the map of members in any order; `order` below is that order.
 */
module Unions {
  import opened Order
  import opened Discovery

  type Offers = map<string, seq<ServedResource>>
  type Entry = (string, ServedResource)
  type Table = map<GVR, ServedResource>

  predicate Agree(a: ServedResource, b: ServedResource) {
    a.kind == b.kind && a.namespaced == b.namespaced
  }

  function Join(existing: ServedResource, c: string, r: ServedResource): ServedResource {
    existing.(status := existing.status || r.status, clusters := existing.clusters + [c])
  }

  /** The table after the entries were merged one by one; None is a kind or scope conflict. */
  function Merge(flat: seq<Entry>): Option<Table> {
    if flat == [] then Some(map[])
    else
      var (c, r) := flat[|flat| - 1];
      var rest := Merge(flat[..|flat| - 1]);
      if rest.None? then None
      else if r.gvr !in rest.value then Some(rest.value[r.gvr := r.(clusters := [c])])
      else if !Agree(rest.value[r.gvr], r) then None
      else Some(rest.value[r.gvr := Join(rest.value[r.gvr], c, r)])
  }

  function Tag(c: string, rs: seq<ServedResource>): seq<Entry> {
    seq(|rs|, i requires 0 <= i < |rs| => (c, rs[i]))
  }

  function Flatten(order: seq<string>, offers: Offers): seq<Entry>
    requires forall c :: c in order ==> c in offers
  {
    if order == [] then []
    else Flatten(order[..|order| - 1], offers) + Tag(order[|order| - 1], offers[order[|order| - 1]])
  }

  ghost predicate IsOrder(order: seq<string>, offers: Offers) {
    Distinct(order) && forall c :: c in order <==> c in offers
  }

  // What the table says, read off the entries.

  function ClustersOf(flat: seq<Entry>, g: GVR): seq<string> {
    if flat == [] then []
    else
      var (c, r) := flat[|flat| - 1];
      ClustersOf(flat[..|flat| - 1], g) + if r.gvr == g then [c] else []
  }

  ghost predicate Mentions(flat: seq<Entry>, g: GVR) {
    exists e :: e in flat && e.1.gvr == g
  }

  /** The first entry for g. */
  function FirstFor(flat: seq<Entry>, g: GVR): Option<ServedResource> {
    if flat == [] then None
    else if flat[0].1.gvr == g then Some(flat[0].1)
    else FirstFor(flat[1..], g)
  }

  lemma {:induction false} FirstAppend(a: seq<Entry>, b: seq<Entry>, g: GVR)
    ensures FirstFor(a + b, g) == if FirstFor(a, g).Some? then FirstFor(a, g) else FirstFor(b, g)
  {
    if a == [] {
      assert a + b == b;
    } else {
      assert (a + b)[1..] == a[1..] + b;
      FirstAppend(a[1..], b, g);
    }
  }

  ghost predicate Clash(flat: seq<Entry>) {
    exists e, d :: e in flat && d in flat && e.1.gvr == d.1.gvr && !Agree(e.1, d.1)
  }

  /** Merging fails exactly on a clash; otherwise the table has a row for what was mentioned. */
  lemma {:induction false} MergeTabulates(flat: seq<Entry>)
    ensures Merge(flat).None? <==> Clash(flat)
    ensures Merge(flat).Some? ==> forall g :: g in Merge(flat).value <==> Mentions(flat, g)
    ensures Merge(flat).Some? ==> forall e :: e in flat ==>
              e.1.gvr in Merge(flat).value && Agree(Merge(flat).value[e.1.gvr], e.1)
  {
    if flat != [] {
      var init, last := flat[..|flat| - 1], flat[|flat| - 1];
      MergeTabulates(init);
      assert forall e :: e in flat <==> e in init || e == last;
      if Merge(init).Some? {
        var t, g := Merge(init).value, last.1.gvr;
        if g in t && !Agree(t[g], last.1) {
          var e :| e in init && e.1.gvr == g;
          assert e in flat && last in flat && !Agree(e.1, last.1);
        } else {
          assert forall h :: Mentions(flat, h) <==> Mentions(init, h) || h == g;
        }
      }
    }
  }

  /** What a row of the table says. */
  lemma {:induction false} MergeRow(flat: seq<Entry>, g: GVR)
    requires Merge(flat).Some? && g in Merge(flat).value
    ensures var row := Merge(flat).value[g];
            && row.gvr == g
            && (row.status <==> exists e :: e in flat && e.1.gvr == g && e.1.status)
            && row.clusters == ClustersOf(flat, g)
            && FirstFor(flat, g).Some? && row.singular == FirstFor(flat, g).value.singular
  {
    var init, last := flat[..|flat| - 1], flat[|flat| - 1];
    var t := Merge(init).value;
    assert flat == init + [last];
    assert forall e :: e in flat <==> e in init || e == last;
    FirstAppend(init, [last], g);
    MergeTabulates(init);
    if g in t {
      MergeRow(init, g);
    } else {
      NoneBefore(init, g);
    }
  }

  lemma {:induction false} NoneBefore(flat: seq<Entry>, g: GVR)
    requires !Mentions(flat, g)
    ensures FirstFor(flat, g).None? && ClustersOf(flat, g) == []
  {
    if flat != [] {
      assert flat[0] in flat && flat[|flat| - 1] in flat;
      NoneHead(flat, g);
      assert forall e :: e in flat[..|flat| - 1] ==> e in flat;
      NoneBefore(flat[..|flat| - 1], g);
    }
  }

  lemma {:induction false} NoneHead(flat: seq<Entry>, g: GVR)
    requires !Mentions(flat, g)
    ensures FirstFor(flat, g).None?
  {
    if flat != [] {
      assert flat[0] in flat;
      assert forall e :: e in flat[1..] ==> e in flat;
      NoneHead(flat[1..], g);
    }
  }

  // From entries back to members.

  lemma {:induction false} FlattenMembers(order: seq<string>, offers: Offers)
    requires forall c :: c in order ==> c in offers
    ensures forall c, r :: (c, r) in Flatten(order, offers) <==> c in order && r in offers[c]
  {
    if order != [] {
      var init, last := order[..|order| - 1], order[|order| - 1];
      FlattenMembers(init, offers);
      forall c, r ensures (c, r) in Flatten(order, offers) <==> c in order && r in offers[c] {
        assert (c, r) in Tag(last, offers[last]) <==> c == last && r in offers[last] by {
          if c == last && r in offers[last] {
            var i :| 0 <= i < |offers[last]| && offers[last][i] == r;
            assert Tag(last, offers[last])[i] == (c, r);
          }
        }
        assert c in order <==> c in init || c == last;
      }
    }
  }

  function Count(rs: seq<ServedResource>, g: GVR): nat {
    if rs == [] then 0 else Count(rs[..|rs| - 1], g) + if rs[|rs| - 1].gvr == g then 1 else 0
  }

  lemma {:induction false} TagClusters(a: seq<Entry>, c: string, rs: seq<ServedResource>, g: GVR, d: string)
    ensures multiset(ClustersOf(a + Tag(c, rs), g))[d] ==
            multiset(ClustersOf(a, g))[d] + if d == c then Count(rs, g) else 0
  {
    if rs == [] {
      assert a + Tag(c, rs) == a;
    } else {
      var init, last := rs[..|rs| - 1], rs[|rs| - 1];
      TagClusters(a, c, init, g, d);
      var flat, prev := a + Tag(c, rs), a + Tag(c, init);
      assert flat == prev + [(c, last)];
      ClustersSnoc(prev, c, last, g);
    }
  }

  lemma ClustersSnoc(prev: seq<Entry>, c: string, r: ServedResource, g: GVR)
    ensures ClustersOf(prev + [(c, r)], g) == ClustersOf(prev, g) + if r.gvr == g then [c] else []
  {
  }

  lemma {:induction false} FlattenClusters(order: seq<string>, offers: Offers, g: GVR, c: string)
    requires Distinct(order) && forall d :: d in order ==> d in offers
    ensures multiset(ClustersOf(Flatten(order, offers), g))[c] == if c in order then Count(offers[c], g) else 0
  {
    if order != [] {
      var init, last := order[..|order| - 1], order[|order| - 1];
      FlattenClusters(init, offers, g, c);
      TagClusters(Flatten(init, offers), last, offers[last], g, c);
      assert order == init + [last];
      assert last !in init;
    }
  }

  /** What a member's own list says first about g. */
  function FirstOf(rs: seq<ServedResource>, g: GVR): Option<ServedResource> {
    FirstFor(Tag("", rs), g)
  }

  lemma {:induction false} FirstTag(c: string, rs: seq<ServedResource>, g: GVR)
    ensures FirstFor(Tag(c, rs), g) == FirstOf(rs, g)
    ensures FirstOf(rs, g).Some? <==> Has(rs, g)
  {
    if rs != [] {
      assert Tag(c, rs)[1..] == Tag(c, rs[1..]) && Tag("", rs)[1..] == Tag("", rs[1..]);
      FirstTag(c, rs[1..], g);
      assert rs == [rs[0]] + rs[1..];
      assert Has(rs, g) <==> rs[0].gvr == g || Has(rs[1..], g);
    }
  }

  lemma FirstOfLast(order: seq<string>, offers: Offers, g: GVR)
    requires order != [] && forall d :: d in order ==> d in offers
    ensures var init, last := order[..|order| - 1], order[|order| - 1];
            var before := FirstFor(Flatten(init, offers), g);
            FirstFor(Flatten(order, offers), g) == if before.Some? then before else FirstOf(offers[last], g)
  {
    var init, last := order[..|order| - 1], order[|order| - 1];
    FirstAppend(Flatten(init, offers), Tag(last, offers[last]), g);
    FirstTag(last, offers[last], g);
  }

  lemma FirstOfNone(order: seq<string>, offers: Offers, g: GVR)
    requires forall d :: d in order ==> d in offers && !Has(offers[d], g)
    ensures FirstFor(Flatten(order, offers), g).None?
  {
    FlattenMembers(order, offers);
    forall e | e in Flatten(order, offers) ensures e.1.gvr != g {
      assert (e.0, e.1) in Flatten(order, offers);
    }
    NoneHead(Flatten(order, offers), g);
  }

  /** The first entry for g comes from the first member in the order that lists g. */
  lemma {:induction false} FlattenFirst(order: seq<string>, offers: Offers, g: GVR) returns (c: string)
    requires forall d :: d in order ==> d in offers
    requires exists d :: d in order && Has(offers[d], g)
    ensures c in order && Has(offers[c], g) && FirstFor(Flatten(order, offers), g) == FirstOf(offers[c], g)
    ensures Has(offers[order[0]], g) ==> c == order[0]
  {
    var init, last := order[..|order| - 1], order[|order| - 1];
    assert order == init + [last];
    FirstOfLast(order, offers, g);
    if exists d :: d in init && Has(offers[d], g) {
      c := FlattenFirst(init, offers, g);
      FirstTag("", offers[c], g);
      assert init[0] == order[0];
    } else {
      c := last;
      FirstOfNone(init, offers, g);
      assert |order| > 1 ==> order[0] in init;
    }
  }

  // The result of Union.

  function GVRString(g: GVR): string {
    g.group + "/" + g.version + ", Resource=" + g.resource
  }

  function SortKey(r: ServedResource): Key {
    [GVRString(r.gvr)]
  }

  ghost predicate Conflicted(offers: Offers) {
    exists c, r, d, s :: c in offers && d in offers && r in offers[c] && s in offers[d] &&
                         r.gvr == s.gvr && !Agree(r, s)
  }

  ghost predicate Offered(offers: Offers, g: GVR) {
    exists c :: c in offers && Has(offers[c], g)
  }

  ghost predicate AllAgree(offers: Offers, u: ServedResource, g: GVR) {
    forall c, r :: c in offers && r in offers[c] && r.gvr == g ==> Agree(u, r)
  }

  ghost predicate SomeStatus(offers: Offers, g: GVR) {
    exists c, r :: c in offers && r in offers[c] && r.gvr == g && r.status
  }

  /** A listing of the members offering g: sorted, and each as often as it lists g. */
  ghost predicate OfferedBy(offers: Offers, g: GVR, names: seq<string>) {
    && Sorted(names, StringKey)
    && forall c :: multiset(names)[c] == if c in offers then Count(offers[c], g) else 0
  }

  /** The singular name member c gives g first. */
  ghost predicate SingularOf(offers: Offers, c: string, g: GVR, singular: string) {
    c in offers && FirstOf(offers[c], g).Some? && singular == FirstOf(offers[c], g).value.singular
  }

  /** One served entry speaks for all members that list its resource. */
  ghost predicate Speaks(offers: Offers, u: ServedResource) {
    && AllAgree(offers, u, u.gvr)
    && (u.status <==> SomeStatus(offers, u.gvr))
    && OfferedBy(offers, u.gvr, u.clusters)
    && exists c :: SingularOf(offers, c, u.gvr, u.singular)
  }

  ghost predicate DistinctGVRs(v: seq<ServedResource>) {
    forall i, j :: 0 <= i < j < |v| ==> v[i].gvr != v[j].gvr
  }

  ghost predicate IsUnion(offers: Offers, v: seq<ServedResource>) {
    && Sorted(v, SortKey)
    && DistinctGVRs(v)
    && (forall g :: Has(v, g) <==> Offered(offers, g))
    && (forall u :: u in v ==> Speaks(offers, u))
  }

  /** What Union may answer: a conflict exactly when there is one, else the union. */
  ghost predicate UnionAnswer(offers: Offers, r: Option<seq<ServedResource>>) {
    match r
    case None => Conflicted(offers)
    case Some(v) => !Conflicted(offers) && IsUnion(offers, v)
  }

  /** These two entries for one resource contradict each other. */
  ghost predicate Contradicts(a: ServedResource, b: ServedResource) {
    a.gvr == b.gvr && (a.kind != b.kind || a.namespaced != b.namespaced)
  }

  /**
   Union fails exactly if two offered entries differ in kind or scope.  Otherwise each served
   resource has the kind and scope that every member offers, has a status iff some member has
   it with one, and names exactly the clusters that offer it.
   */
  lemma UnionMeans(offers: Offers, r: Option<seq<ServedResource>>)
    requires UnionAnswer(offers, r)
    ensures r.None? <==> exists c, a, d, b :: c in offers && d in offers && a in offers[c] && b in offers[d]
                                              && Contradicts(a, b)
    ensures r.Some? ==> forall u, c, a :: u in r.value && c in offers && a in offers[c] && a.gvr == u.gvr ==>
              && a.kind == u.kind && a.namespaced == u.namespaced && (a.status ==> u.status) && c in u.clusters
    ensures r.Some? ==> forall u :: u in r.value && u.status ==>
              exists c, a :: c in offers && a in offers[c] && a.gvr == u.gvr && a.status
    ensures r.Some? ==> forall u, c :: u in r.value && c in u.clusters ==> c in offers && Has(offers[c], u.gvr)
    ensures r.Some? ==> forall c, a :: c in offers && a in offers[c] ==> Has(r.value, a.gvr)
  {
    hide Sorted, Count, FirstOf, Conflicted;
    ConflictMeans(offers);
    if r.Some? {
      forall u | u in r.value && u.status
        ensures exists c, a :: c in offers && a in offers[c] && a.gvr == u.gvr && a.status
      {
        assert Speaks(offers, u);
      }
      forall u, c | u in r.value ensures c in u.clusters <==> c in offers && Has(offers[c], u.gvr) {
        assert Speaks(offers, u);
        assert c in u.clusters <==> multiset(u.clusters)[c] > 0;
        if c in offers { CountHas(offers[c], u.gvr); }
      }
      forall u, c, a | u in r.value && c in offers && a in offers[c] && a.gvr == u.gvr
        ensures a.kind == u.kind && a.namespaced == u.namespaced && (a.status ==> u.status) && c in u.clusters
      {
        assert Speaks(offers, u) && Has(offers[c], u.gvr);
        assert Agree(u, a);
      }
      forall c, a | c in offers && a in offers[c] ensures Has(r.value, a.gvr) {
        assert Has(offers[c], a.gvr);
        assert Offered(offers, a.gvr);
      }
    }
  }

  lemma ConflictMeans(offers: Offers)
    ensures Conflicted(offers) <==> exists c, a, d, b :: c in offers && d in offers && a in offers[c] && b in offers[d]
                                                         && Contradicts(a, b)
  {
    assert forall a, b: ServedResource :: Contradicts(a, b) <==> a.gvr == b.gvr && !Agree(a, b);
  }

  lemma {:induction false} CountHas(rs: seq<ServedResource>, g: GVR)
    ensures Count(rs, g) > 0 <==> Has(rs, g)
  {
    if rs != [] {
      var init, last := rs[..|rs| - 1], rs[|rs| - 1];
      CountHas(init, g);
      assert forall r :: r in rs <==> r in init || r == last;
    }
  }

  /** What is served is ordered by the rendered resource. */
  lemma UnionSorted(offers: Offers, v: seq<ServedResource>, i: nat, j: nat)
    requires IsUnion(offers, v) && i < j < |v|
    ensures var a, b := v[i].gvr, v[j].gvr;
            StrLe(a.group + "/" + a.version + ", Resource=" + a.resource,
                  b.group + "/" + b.version + ", Resource=" + b.resource)
  {
    assert KeyLe(SortKey(v[i]), SortKey(v[j]));
    StrOrder(GVRString(v[i].gvr), GVRString(v[j].gvr));
  }

  // Union is canonical.

  /** The sort key tells the offered resources apart. */
  ghost predicate KeysDistinct(offers: Offers) {
    forall g, h :: Offered(offers, g) && Offered(offers, h) && GVRString(g) == GVRString(h) ==> g == h
  }

  lemma {:induction false} FirstIndex(s: string, x: char, i: nat)
    requires i < |s| && s[i] == x && x !in s[..i]
    ensures IndexOf(s, x) == i
  {
  }

  lemma SplitUnique(a: string, b: string, c: string, d: string, x: char)
    requires x !in a && x !in c && a + [x] + b == c + [x] + d
    ensures a == c && b == d
  {
    var s := a + [x] + b;
    assert s[..|a|] == a && s[..|c|] == c;
    FirstIndex(s, x, |a|);
    FirstIndex(s, x, |c|);
    assert s[|a| + 1..] == b && s[|c| + 1..] == d;
  }

  /** The rendered form is faithful for groups without a slash and versions without a comma. */
  lemma GVRStringInjective(g: GVR, h: GVR)
    requires '/' !in g.group && '/' !in h.group && ',' !in g.version && ',' !in h.version
    requires GVRString(g) == GVRString(h)
    ensures g == h
  {
    var gTail, hTail := g.version + ", Resource=" + g.resource, h.version + ", Resource=" + h.resource;
    assert GVRString(g) == g.group + ['/'] + gTail && GVRString(h) == h.group + ['/'] + hTail;
    SplitUnique(g.group, gTail, h.group, hTail, '/');
    var gName, hName := " Resource=" + g.resource, " Resource=" + h.resource;
    assert gTail == g.version + [','] + gName && hTail == h.version + [','] + hName;
    SplitUnique(g.version, gName, h.version, hName, ',');
    assert gName[|" Resource="|..] == g.resource && hName[|" Resource="|..] == h.resource;
  }

  /** What members offer comes from discovery: no slash in a group or a resource name, no clusters yet. */
  ghost predicate PlainOffers(offers: Offers) {
    forall c :: c in offers ==> PlainNames(offers[c])
  }

  /** So the sort key tells all offers apart as long as no version has a comma, as none in Kubernetes has. */
  lemma KeysTellApart(offers: Offers)
    requires PlainOffers(offers)
    requires forall c, r :: c in offers && r in offers[c] ==> ',' !in r.gvr.version
    ensures KeysDistinct(offers)
  {
    forall g, h | Offered(offers, g) && Offered(offers, h) && GVRString(g) == GVRString(h) ensures g == h {
      var c :| c in offers && Has(offers[c], g);
      var d :| d in offers && Has(offers[d], h);
      GVRStringInjective(g, h);
    }
  }

  function Unnamed(v: seq<ServedResource>): seq<ServedResource> {
    seq(|v|, i requires 0 <= i < |v| => v[i].(singular := ""))
  }

  /** Two entries for one resource differ at most in the singular name. */
  lemma SpeakAlike(offers: Offers, a: ServedResource, b: ServedResource)
    requires Speaks(offers, a) && Speaks(offers, b) && a.gvr == b.gvr
    ensures a.(singular := "") == b.(singular := "")
  {
    var c :| SingularOf(offers, c, a.gvr, a.singular);
    FirstTag("", offers[c], a.gvr);
    var r :| r in offers[c] && r.gvr == a.gvr;
    assert Agree(a, r) && Agree(b, r);
    assert multiset(a.clusters) == multiset(b.clusters);
    forall x, y | x in a.clusters && y in a.clusters && StringKey(x) == StringKey(y) ensures x == y {
      assert StringKey(x)[0] == StringKey(y)[0];
    }
    SortedUnique(a.clusters, b.clusters, StringKey);
  }

  /** For every two iteration orders the answers are the same, up to the singular names. */
  lemma UnionCanonical(offers: Offers, a: Option<seq<ServedResource>>, b: Option<seq<ServedResource>>)
    requires UnionAnswer(offers, a) && UnionAnswer(offers, b) && KeysDistinct(offers)
    ensures (a.Some? <==> !Conflicted(offers)) && (b.Some? <==> !Conflicted(offers))
    ensures a.Some? ==> Unnamed(a.value) == Unnamed(b.value)
  {
    if a.Some? {
      var v, w := Unnamed(a.value), Unnamed(b.value);
      UnnamedSorted(a.value);
      UnnamedSorted(b.value);
      UnnamedWithin(offers, a.value, b.value);
      UnnamedWithin(offers, b.value, a.value);
      SameMembersPermute(v, w);
      UnnamedKeyed(offers, a.value);
      SortedUnique(v, w, SortKey);
    }
  }

  lemma UnnamedKeyed(offers: Offers, v: seq<ServedResource>)
    requires IsUnion(offers, v) && KeysDistinct(offers)
    ensures Keyed(Unnamed(v), SortKey)
  {
    hide Speaks, Sorted;
    var w := Unnamed(v);
    forall x, y | x in w && y in w && SortKey(x) == SortKey(y) ensures x == y {
      var i :| 0 <= i < |w| && w[i] == x;
      var j :| 0 <= j < |w| && w[j] == y;
      assert v[i] in v && v[j] in v;
      assert Has(v, x.gvr) && Has(v, y.gvr);
      assert SortKey(x)[0] == GVRString(x.gvr) && SortKey(y)[0] == GVRString(y.gvr);
    }
  }

  lemma UnnamedSorted(v: seq<ServedResource>)
    requires Sorted(v, SortKey) && DistinctGVRs(v)
    ensures Sorted(Unnamed(v), SortKey) && Distinct(Unnamed(v))
  {
  }

  lemma UnnamedWithin(offers: Offers, v: seq<ServedResource>, w: seq<ServedResource>)
    requires IsUnion(offers, v) && IsUnion(offers, w)
    ensures forall x :: x in Unnamed(v) ==> x in Unnamed(w)
  {
    forall x | x in Unnamed(v) ensures x in Unnamed(w) {
      var i :| 0 <= i < |v| && x == v[i].(singular := "");
      assert v[i] in v;
      assert Has(v, v[i].gvr);
      var u :| u in w && u.gvr == v[i].gvr;
      var j :| 0 <= j < |w| && w[j] == u;
      SpeakAlike(offers, v[i], w[j]);
      assert Unnamed(w)[j] == x;
    }
  }

  /** Members listing one resource give it the same singular name. */
  ghost predicate SingularsAgree(offers: Offers) {
    forall c, d, g, s, z :: SingularOf(offers, c, g, s) && SingularOf(offers, d, g, z) ==> s == z
  }

  /** When they do, Union is a function of the offers. */
  lemma UnionFunction(offers: Offers, a: Option<seq<ServedResource>>, b: Option<seq<ServedResource>>)
    requires UnionAnswer(offers, a) && UnionAnswer(offers, b) && KeysDistinct(offers) && SingularsAgree(offers)
    ensures a == b
  {
    UnionCanonical(offers, a, b);
    if a.Some? {
      var v, w := a.value, b.value;
      assert |v| == |Unnamed(v)| == |Unnamed(w)| == |w|;
      forall i | 0 <= i < |v| ensures v[i] == w[i] {
        assert Unnamed(v)[i] == Unnamed(w)[i];
        assert v[i] in v && w[i] in w;
        SameSpeech(offers, v[i], w[i]);
      }
      assert v == w;
    }
  }

  lemma SameSpeech(offers: Offers, a: ServedResource, b: ServedResource)
    requires Speaks(offers, a) && Speaks(offers, b) && SingularsAgree(offers)
    requires a.(singular := "") == b.(singular := "")
    ensures a == b
  {
  }

  /**
   The exact condition: every two orders merge to the same table if and only if members
   that list a resource agree on its singular name.
   */
  lemma OrderFreeIffSingularsAgree(offers: Offers)
    requires !Conflicted(offers)
    ensures SingularsAgree(offers) <==>
            forall o, p, g :: SameSingular(offers, o, p, g)
  {
    if SingularsAgree(offers) {
      forall o, p, g ensures SameSingular(offers, o, p, g) {
        if IsOrder(o, offers) && IsOrder(p, offers) && Offered(offers, g) {
          var t := TableFor(o, offers, g);
          var u := TableFor(p, offers, g);
          var c := RowSingular(o, offers, t, g);
          var d := RowSingular(p, offers, u, g);
        }
      }
    } else {
      var c, d, g, s, z :| SingularOf(offers, c, g, s) && SingularOf(offers, d, g, z) && s != z;
      FirstTag("", offers[c], g);
      FirstTag("", offers[d], g);
      var o, p := StartingAt(offers, c), StartingAt(offers, d);
      var t := TableFor(o, offers, g);
      var u := TableFor(p, offers, g);
      var c' := RowSingular(o, offers, t, g);
      var d' := RowSingular(p, offers, u, g);
      assert !SameSingular(offers, o, p, g);
    }
  }

  ghost predicate SameSingular(offers: Offers, o: seq<string>, p: seq<string>, g: GVR) {
    IsOrder(o, offers) && IsOrder(p, offers) && Offered(offers, g) ==>
      var t, u := Merge(Flatten(o, offers)), Merge(Flatten(p, offers));
      t.Some? && u.Some? && g in t.value && g in u.value && t.value[g].singular == u.value[g].singular
  }

  lemma TableFor(order: seq<string>, offers: Offers, g: GVR) returns (t: Table)
    requires IsOrder(order, offers) && !Conflicted(offers) && Offered(offers, g)
    ensures Merge(Flatten(order, offers)) == Some(t) && g in t
  {
    ClashIsConflict(order, offers);
    MergeTabulates(Flatten(order, offers));
    MentionsOffered(order, offers, g);
    t := Merge(Flatten(order, offers)).value;
  }

  ghost function StartingAt(offers: Offers, c: string): (order: seq<string>)
    requires c in offers
    ensures IsOrder(order, offers) && order != [] && order[0] == c
  {
    [c] + Ordering(offers.Keys - {c})
  }

  lemma ClashIsConflict(order: seq<string>, offers: Offers)
    requires IsOrder(order, offers)
    ensures Clash(Flatten(order, offers)) <==> Conflicted(offers)
  {
    FlattenMembers(order, offers);
    var flat := Flatten(order, offers);
    if Clash(flat) {
      var e, d :| e in flat && d in flat && e.1.gvr == d.1.gvr && !Agree(e.1, d.1);
      assert (e.0, e.1) in flat && (d.0, d.1) in flat;
    }
    if Conflicted(offers) {
      var c, r, d, s :| c in offers && d in offers && r in offers[c] && s in offers[d] &&
                        r.gvr == s.gvr && !Agree(r, s);
      assert (c, r) in flat && (d, s) in flat;
    }
  }

  lemma RowSpeaks(order: seq<string>, offers: Offers, t: Table, g: GVR)
    requires IsOrder(order, offers) && Merge(Flatten(order, offers)) == Some(t) && g in t
    ensures Speaks(offers, Row(t, g)) && t[g].gvr == g
  {
    RowAgrees(order, offers, t, g);
    RowClusters(order, offers, t, g);
    var c := RowSingular(order, offers, t, g);
    AgreeRegardless(offers, t[g], SortStrings(t[g].clusters), g);
  }

  lemma AgreeRegardless(offers: Offers, u: ServedResource, names: seq<string>, g: GVR)
    requires AllAgree(offers, u, g)
    ensures AllAgree(offers, u.(clusters := names), g)
  {
  }

  lemma RowClusters(order: seq<string>, offers: Offers, t: Table, g: GVR)
    requires IsOrder(order, offers) && Merge(Flatten(order, offers)) == Some(t) && g in t
    ensures OfferedBy(offers, g, SortStrings(t[g].clusters))
  {
    MergeRow(Flatten(order, offers), g);
    forall c ensures multiset(t[g].clusters)[c] == if c in offers then Count(offers[c], g) else 0 {
      FlattenClusters(order, offers, g, c);
    }
  }

  lemma RowSingular(order: seq<string>, offers: Offers, t: Table, g: GVR) returns (c: string)
    requires IsOrder(order, offers) && Merge(Flatten(order, offers)) == Some(t) && g in t
    ensures SingularOf(offers, c, g, t[g].singular)
    ensures Has(offers[order[0]], g) ==> c == order[0]
  {
    MergeTabulates(Flatten(order, offers));
    MergeRow(Flatten(order, offers), g);
    MentionsOffered(order, offers, g);
    var d :| d in offers && Has(offers[d], g);
    assert d in order;
    c := FlattenFirst(order, offers, g);
    FirstTag("", offers[c], g);
  }

  lemma RowAgrees(order: seq<string>, offers: Offers, t: Table, g: GVR)
    requires IsOrder(order, offers) && Merge(Flatten(order, offers)) == Some(t) && g in t
    ensures t[g].gvr == g
    ensures AllAgree(offers, t[g], g) && (t[g].status <==> SomeStatus(offers, g))
  {
    var flat := Flatten(order, offers);
    MergeTabulates(flat);
    MergeRow(flat, g);
    FlattenMembers(order, offers);
    forall c, r | c in offers && r in offers[c] && r.gvr == g
      ensures Agree(t[g], r) && (r.status ==> t[g].status)
    {
      assert (c, r) in flat;
    }
    if t[g].status {
      var e :| e in flat && e.1.gvr == g && e.1.status;
      assert (e.0, e.1) in flat;
    }
  }

  lemma MentionsOffered(order: seq<string>, offers: Offers, g: GVR)
    requires IsOrder(order, offers)
    ensures Mentions(Flatten(order, offers), g) <==> Offered(offers, g)
  {
    FlattenMembers(order, offers);
    var flat := Flatten(order, offers);
    if Mentions(flat, g) {
      var e :| e in flat && e.1.gvr == g;
      assert (e.0, e.1) in flat;
      assert Has(offers[e.0], g);
    }
    if Offered(offers, g) {
      var c :| c in offers && Has(offers[c], g);
      var r :| r in offers[c] && r.gvr == g;
      assert (c, r) in flat;
    }
  }

  /** The sorted rows of a merged table are the union. */
  lemma TableIsUnion(order: seq<string>, offers: Offers, t: Table, v: seq<ServedResource>)
    requires IsOrder(order, offers) && Merge(Flatten(order, offers)) == Some(t)
    requires Sorted(v, SortKey)
    requires DistinctGVRs(v)
    requires forall u :: u in v ==> u.gvr in t && u == Row(t, u.gvr)
    requires forall g :: g in t ==> Has(v, g)
    ensures UnionAnswer(offers, Some(v))
  {
    MergeTabulates(Flatten(order, offers));
    ClashIsConflict(order, offers);
    forall g ensures Has(v, g) <==> Offered(offers, g) {
      MentionsOffered(order, offers, g);
    }
    forall u | u in v ensures Speaks(offers, u) {
      RowSpeaks(order, offers, t, u.gvr);
    }
  }

  /** Every iteration order of offers without a conflict gives a union, made of the merged table's rows. */
  lemma UnionFor(order: seq<string>, offers: Offers) returns (t: Table, v: seq<ServedResource>)
    requires IsOrder(order, offers) && !Conflicted(offers)
    ensures Merge(Flatten(order, offers)) == Some(t) && IsUnion(offers, v)
    ensures forall u :: u in v ==> u.gvr in t && u == Row(t, u.gvr)
  {
    ClashIsConflict(order, offers);
    MergeTabulates(Flatten(order, offers));
    t := Merge(Flatten(order, offers)).value;
    forall g | g in t ensures t[g].gvr == g {
      MergeRow(Flatten(order, offers), g);
    }
    v := SortedTable(t);
    TableIsUnion(order, offers, t, v);
  }

  lemma SortedTable(t: Table) returns (v: seq<ServedResource>)
    requires forall g :: g in t ==> t[g].gvr == g
    ensures Sorted(v, SortKey) && DistinctGVRs(v)
    ensures forall u :: u in v ==> u.gvr in t && u == Row(t, u.gvr)
    ensures forall g :: g in t ==> Has(v, g)
  {
    var keys := Ordering(t.Keys);
    var rows := seq(|keys|, i requires 0 <= i < |keys| => assert keys[i] in keys; Row(t, keys[i]));
    v := SortBy(rows, SortKey);
    SortedRows(t, keys, rows, v);
  }

  /** There is an answer for all offers. */
  lemma UnionExists(offers: Offers) returns (u: Option<seq<ServedResource>>)
    ensures UnionAnswer(offers, u)
  {
    if Conflicted(offers) {
      return None;
    }
    var t, v := UnionFor(Ordering(offers.Keys), offers);
    u := Some(v);
  }

  /** When member c gives g a singular name, some iteration order serves g by that name. */
  lemma UnionNaming(offers: Offers, c: string, g: GVR, singular: string) returns (v: seq<ServedResource>)
    requires !Conflicted(offers) && SingularOf(offers, c, g, singular)
    ensures IsUnion(offers, v) && Has(v, g) && forall u :: u in v && u.gvr == g ==> u.singular == singular
  {
    FirstTag("", offers[c], g);
    var order := StartingAt(offers, c);
    var t;
    t, v := UnionFor(order, offers);
    assert Offered(offers, g);
    var u :| u in v && u.gvr == g;
    var d := RowSingular(order, offers, t, g);
  }

  /** So when members disagree on a singular name, no union is the only one. */
  lemma OtherUnion(offers: Offers, v: seq<ServedResource>) returns (w: seq<ServedResource>)
    requires !Conflicted(offers) && !SingularsAgree(offers)
    ensures IsUnion(offers, w) && w != v && w != []
  {
    var c, d, g, s, z :| SingularOf(offers, c, g, s) && SingularOf(offers, d, g, z) && s != z;
    w := UnionNaming(offers, c, g, s);
    if w == v {
      var u :| u in v && u.gvr == g;
      w := UnionNaming(offers, d, g, z);
    }
  }

  lemma ConflictEarly(order: seq<string>, offers: Offers, c: string, seen: nat)
    requires (forall d :: d in order ==> d in offers) && c in offers && seen <= |offers[c]|
    requires Merge(Flatten(order, offers) + Tag(c, offers[c][..seen])).None?
    ensures Conflicted(offers)
  {
    var flat := Flatten(order, offers) + Tag(c, offers[c][..seen]);
    FlattenMembers(order, offers);
    MergeTabulates(flat);
    forall d, s | (d, s) in flat ensures d in offers && s in offers[d] {
      assert (d, s) in Flatten(order, offers) || (d, s) in Tag(c, offers[c][..seen]);
    }
    var e, d :| e in flat && d in flat && e.1.gvr == d.1.gvr && !Agree(e.1, d.1);
    assert (e.0, e.1) in flat && (d.0, d.1) in flat;
  }

  /** Merges the resources of one more cluster into the table. */
  method MergeCluster(before: Table, c: string, resources: seq<ServedResource>, ghost done: seq<Entry>)
    returns (after: Option<Table>, ghost seen: nat)
    requires Merge(done) == Some(before)
    ensures seen <= |resources| && Merge(done + Tag(c, resources[..seen])) == after
    ensures after.Some? ==> seen == |resources|
  {
    var merged := before;
    assert done + Tag(c, resources[..0]) == done;
    for i := 0 to |resources|
      invariant Merge(done + Tag(c, resources[..i])) == Some(merged)
    {
      var resource := resources[i];
      ghost var flat := done + Tag(c, resources[..i + 1]);
      assert flat[..|flat| - 1] == done + Tag(c, resources[..i]) && flat[|flat| - 1] == (c, resource);
      if resource.gvr !in merged {
        merged := merged[resource.gvr := resource.(clusters := [c])];
      } else {
        var existing := merged[resource.gvr];
        if existing.kind != resource.kind || existing.namespaced != resource.namespaced {
          return None, i + 1;
        }
        merged := merged[resource.gvr := Join(existing, c, resource)];
      }
    }
    return Some(merged), |resources|;
  }

  /** Merges per-cluster served resources; kind and scope conflicts are errors. */
  method Union(offers: Offers) returns (r: Option<seq<ServedResource>>)
    ensures UnionAnswer(offers, r)
  {
    var merged: Table := map[];
    var todo := offers.Keys;
    ghost var order: seq<string> := [];
    while todo != {}
      invariant todo <= offers.Keys && Distinct(order)
      invariant forall c :: c in order <==> c in offers && c !in todo
      invariant Merge(Flatten(order, offers)) == Some(merged)
      decreases todo
    {
      var c :| c in todo;
      todo := todo - {c};
      var after, seen := MergeCluster(merged, c, offers[c], Flatten(order, offers));
      if after.None? {
        ConflictEarly(order, offers, c, seen);
        return None;
      }
      assert offers[c][..seen] == offers[c];
      assert (order + [c])[..|order|] == order;
      merged := after.value;
      order := order + [c];
    }
    forall g | g in merged ensures merged[g].gvr == g {
      MergeRow(Flatten(order, offers), g);
    }
    var rows, keys := Rows(merged);
    var result := SortBy(rows, SortKey);
    SortedRows(merged, keys, rows, result);
    TableIsUnion(order, offers, merged, result);
    return Some(result);
  }

  function Row(t: Table, g: GVR): ServedResource
    requires g in t
  {
    t[g].(clusters := SortStrings(t[g].clusters))
  }

  /** The rows of the table, each with its clusters sorted, in no particular order. */
  method Rows(merged: Table) returns (rows: seq<ServedResource>, ghost keys: seq<GVR>)
    ensures |rows| == |keys| && Distinct(keys)
    ensures forall g :: g in keys <==> g in merged
    ensures forall i :: 0 <= i < |keys| ==> rows[i] == Row(merged, keys[i])
  {
    rows, keys := [], [];
    var left := merged.Keys;
    while left != {}
      invariant left <= merged.Keys && |rows| == |keys| && Distinct(keys)
      invariant forall g :: g in keys <==> g in merged && g !in left
      invariant forall i :: 0 <= i < |keys| ==> rows[i] == Row(merged, keys[i])
      decreases left
    {
      var g :| g in left;
      rows := rows + [Row(merged, g)];
      keys := keys + [g];
      left := left - {g};
    }
  }

  lemma SortedRows(t: Table, keys: seq<GVR>, rows: seq<ServedResource>, v: seq<ServedResource>)
    requires forall g :: g in t ==> t[g].gvr == g
    requires |rows| == |keys| && Distinct(keys) && (forall g :: g in keys <==> g in t)
    requires forall i :: 0 <= i < |keys| ==> rows[i] == Row(t, keys[i])
    requires multiset(v) == multiset(rows)
    ensures DistinctGVRs(v)
    ensures forall u :: u in v ==> u.gvr in t && u == Row(t, u.gvr)
    ensures forall g :: g in t ==> Has(v, g)
  {
    forall i | 0 <= i < |rows| ensures rows[i].gvr == keys[i] {
      assert keys[i] in keys;
    }
    PermutationOfDistinct(rows, v);
    forall u | u in v ensures u.gvr in t && u == Row(t, u.gvr) {
      var i :| 0 <= i < |rows| && rows[i] == u;
      assert keys[i] in keys;
    }
    forall i, j | 0 <= i < j < |v| ensures v[i].gvr != v[j].gvr {
      assert v[i] in v && v[j] in v;
    }
    forall g | g in t ensures Has(v, g) {
      var i :| 0 <= i < |keys| && keys[i] == g;
      assert rows[i] in v;
    }
  }
}
