/**
 From discovery documents to the served set (pkg/apiserver/discovery.go).
 */
module Discovery {
  import opened Order

  datatype GVR = GVR(group: string, version: string, resource: string)
  datatype GVK = GVK(group: string, version: string, kind: string)

  datatype ServedResource = ServedResource(gvr: GVR, kind: GVK, namespaced: bool, singular: string,
                                           status: bool, clusters: seq<string>)

  datatype APIResource = APIResource(name: string, singularName: string, kind: string, namespaced: bool)
  datatype APIResourceList = APIResourceList(groupVersion: string, resources: seq<APIResource>)
  datatype APISelector = APISelector(group: string, resources: seq<string>, versions: seq<string>)

  // Reading one member's discovery.

  function IndexOf(s: string, x: char): (i: nat)
    ensures i <= |s| && x !in s[..i] && (i < |s| ==> s[i] == x)
  {
    if s == [] || s[0] == x then 0
    else
      var i := 1 + IndexOf(s[1..], x);
      assert s[..i] == [s[0]] + s[1..][..i - 1];
      i
  }

  /** A group and version as `group/version`, or `version` alone for the core group. */
  function ParseGroupVersion(s: string): (r: Option<(string, string)>)
    ensures r.Some? ==> '/' !in r.value.0 && '/' !in r.value.1
  {
    if s == "" || s == "/" then Some(("", ""))
    else
      var i := IndexOf(s, '/');
      if i == |s| then
        assert s[..i] == s;
        Some(("", s))
      else if '/' in s[i + 1..] then None
      else Some((s[..i], s[i + 1..]))
  }

  /** Without a slash it is a version, with one it is group and version, with more it is refused. */
  lemma ParsedGroupVersion(group: string, version: string, s: string)
    requires '/' !in group && '/' !in version
    ensures ParseGroupVersion(version) == Some(("", version))
    ensures ParseGroupVersion(group + ['/'] + version) == Some((group, version))
    ensures '/' in s ==> ParseGroupVersion(version + ['/'] + s) == None
  {
    SplitsAt(group, version);
    SplitsAt(version, s);
  }

  lemma SplitsAt(a: string, b: string)
    requires '/' !in a
    ensures var s := a + ['/'] + b; IndexOf(s, '/') == |a| && s[..|a|] == a && s[|a| + 1..] == b
  {
    var s := a + ['/'] + b;
    assert s[|a|] == '/' && s[..|a|] == a;
    assert '/' in s[..|a| + 1];
  }

  predicate IsPlain(r: APIResource) {
    '/' !in r.name
  }

  predicate HasStatus(all: seq<APIResource>, name: string) {
    exists i :: 0 <= i < |all| && all[i].name == name + "/status"
  }

  function Served(gv: (string, string), all: seq<APIResource>, r: APIResource): ServedResource {
    ServedResource(GVR(gv.0, gv.1, r.name), GVK(gv.0, gv.1, r.kind), r.namespaced, r.singularName,
                   HasStatus(all, r.name), [])
  }

  function FromList(gv: (string, string), all: seq<APIResource>, n: nat): seq<ServedResource>
    requires n <= |all|
  {
    if n == 0 then []
    else FromList(gv, all, n - 1) + if IsPlain(all[n - 1]) then [Served(gv, all, all[n - 1])] else []
  }

  function FromLists(lists: seq<APIResourceList>): Option<seq<ServedResource>> {
    if lists == [] then Some([])
    else
      var last := lists[|lists| - 1];
      var rest := FromLists(lists[..|lists| - 1]);
      var gv := ParseGroupVersion(last.groupVersion);
      if rest.None? || gv.None? then None
      else Some(rest.value + FromList(gv.value, last.resources, |last.resources|))
  }

  method FromDiscovery(lists: seq<APIResourceList>) returns (r: Option<seq<ServedResource>>)
    ensures r == FromLists(lists)
  {
    hide ParseGroupVersion, IndexOf;
    var resources: seq<ServedResource> := [];
    for k := 0 to |lists|
      invariant FromLists(lists[..k]) == Some(resources)
    {
      var all := lists[k].resources;
      var gv := ParseGroupVersion(lists[k].groupVersion);
      assert lists[..k + 1][..k] == lists[..k];
      if gv.None? {
        NoneSpreads(lists, k + 1);
        return None;
      }
      var withStatus: set<string> := {};
      for i := 0 to |all|
        invariant forall name :: name in withStatus <==> HasStatus(all[..i], name)
      {
        var name := all[i].name;
        var cut := |name| - |"/status"|;
        if cut >= 0 && name[cut..] == "/status" {
          assert name == name[..cut] + "/status";
          withStatus := withStatus + {name[..cut]};
        }
        forall parent
          ensures HasStatus(all[..i + 1], parent) <==> HasStatus(all[..i], parent) || name == parent + "/status"
        {
          assert all[..i + 1][i].name == name;
          assert forall j :: 0 <= j < i ==> all[..i + 1][j] == all[..i][j];
        }
        assert forall parent :: name == parent + "/status" ==>
                  cut >= 0 && name[cut..] == "/status" && name[..cut] == parent;
      }
      assert all[..|all|] == all;
      ghost var before := resources;
      for i := 0 to |all|
        invariant resources == before + FromList(gv.value, all, i)
      {
        if '/' !in all[i].name {
          resources := resources +
          [ServedResource(GVR(gv.value.0, gv.value.1, all[i].name), GVK(gv.value.0, gv.value.1, all[i].kind),
                          all[i].namespaced, all[i].singularName, all[i].name in withStatus, [])];
        }
      }
    }
    assert lists[..|lists|] == lists;
    return Some(resources);
  }

  lemma {:induction false} NoneSpreads(lists: seq<APIResourceList>, k: nat)
    requires k <= |lists| && FromLists(lists[..k]).None?
    ensures FromLists(lists).None?
    decreases |lists| - k
  {
    if k < |lists| {
      assert lists[..k + 1][..k] == lists[..k];
      NoneSpreads(lists, k + 1);
    } else {
      assert lists[..k] == lists;
    }
  }

  predicate SelectedBy(s: APISelector, g: GVR) {
    && s.group in {"*", g.group}
    && (s.versions == [] || g.version in s.versions)
    && (s.resources == [] || "*" in s.resources || g.resource in s.resources)
  }

  predicate Matches(g: GVR, selectors: seq<APISelector>) {
    exists i :: 0 <= i < |selectors| && SelectedBy(selectors[i], g)
  }

  /** Which resources a selector takes, from single groups, versions and resources and their combination. */
  lemma SelectorLaws(s: APISelector, g: GVR, group: string, x: string, xs: seq<string>)
    ensures SelectedBy(APISelector(group, [], []), g) <==> group == "*" || group == g.group
    ensures SelectedBy(APISelector("*", [x], []), g) <==> x == "*" || x == g.resource
    ensures SelectedBy(APISelector("*", [], [x]), g) <==> x == g.version
    ensures xs != [] ==> (SelectedBy(APISelector("*", [x] + xs, []), g) <==>
              SelectedBy(APISelector("*", [x], []), g) || SelectedBy(APISelector("*", xs, []), g))
    ensures xs != [] ==> (SelectedBy(APISelector("*", [], [x] + xs), g) <==>
              SelectedBy(APISelector("*", [], [x]), g) || SelectedBy(APISelector("*", [], xs), g))
    ensures SelectedBy(s, g) <==>
            && SelectedBy(APISelector(s.group, [], []), g)
            && SelectedBy(APISelector("*", s.resources, []), g)
            && SelectedBy(APISelector("*", [], s.versions), g)
    ensures Matches(g, [s]) <==> SelectedBy(s, g)
  {
    assert [s][0] == s;
  }

  function Filter(resources: seq<ServedResource>, selectors: seq<APISelector>): seq<ServedResource> {
    if resources == [] then []
    else
      var last := resources[|resources| - 1];
      var rest := Filter(resources[..|resources| - 1], selectors);
      if Matches(last.gvr, selectors) then rest + [last] else rest
  }

  /** What one member contributes: its discovery, read and filtered. */
  function Resolved(lists: seq<APIResourceList>, selectors: seq<APISelector>): Option<seq<ServedResource>> {
    var all := FromLists(lists);
    if all.None? then None else Some(Filter(all.value, selectors))
  }

  /** The discovery document lists g itself, not merely one of its subresources. */
  ghost predicate Lists(lists: seq<APIResourceList>, g: GVR) {
    exists i, j :: 0 <= i < |lists| && 0 <= j < |lists[i].resources| &&
                   ListsAt(lists[i], lists[i].resources[j], g)
  }

  ghost predicate ListsAt(list: APIResourceList, r: APIResource, g: GVR) {
    IsPlain(r) && r.name == g.resource && ParseGroupVersion(list.groupVersion) == Some((g.group, g.version))
  }

  ghost predicate Has(rs: seq<ServedResource>, g: GVR) {
    exists r :: r in rs && r.gvr == g
  }

  ghost predicate PlainNames(rs: seq<ServedResource>) {
    forall r :: r in rs ==> '/' !in r.gvr.resource && '/' !in r.gvr.group && r.clusters == []
  }

  /** A member contributes g exactly when its discovery lists it and a selector takes it. */
  lemma ResolvedIsExact(lists: seq<APIResourceList>, selectors: seq<APISelector>, g: GVR)
    requires Resolved(lists, selectors).Some?
    ensures Has(Resolved(lists, selectors).value, g) <==> Lists(lists, g) && Matches(g, selectors)
    ensures PlainNames(Resolved(lists, selectors).value)
  {
    var all := FromLists(lists).value;
    FilterMembers(all, selectors);
    FromListsMembers(lists, g);
  }

  /** The resource is what this entry of the list says about it. */
  ghost predicate Describes(list: APIResourceList, entry: APIResource, r: ServedResource) {
    && '/' !in entry.name && r.gvr.resource == entry.name
    && ParseGroupVersion(list.groupVersion) == Some((r.gvr.group, r.gvr.version))
    && r.kind == GVK(r.gvr.group, r.gvr.version, entry.kind)
    && r.namespaced == entry.namespaced && r.singular == entry.singularName && r.clusters == []
    && (r.status <==> exists k :: 0 <= k < |list.resources| && list.resources[k].name == entry.name + "/status")
  }

  ghost predicate DescribedIn(lists: seq<APIResourceList>, r: ServedResource) {
    exists i, j :: 0 <= i < |lists| && 0 <= j < |lists[i].resources| && Describes(lists[i], lists[i].resources[j], r)
  }

  /** A member contributes exactly what its discovery describes and a selector takes. */
  lemma ResolvedDescribes(lists: seq<APIResourceList>, selectors: seq<APISelector>, r: ServedResource)
    requires Resolved(lists, selectors).Some?
    ensures r in Resolved(lists, selectors).value <==> DescribedIn(lists, r) && Matches(r.gvr, selectors)
  {
    FilterMembers(FromLists(lists).value, selectors);
    FromListsDescribe(lists, r);
  }

  lemma {:induction false} FromListsDescribe(lists: seq<APIResourceList>, r: ServedResource)
    requires FromLists(lists).Some?
    ensures r in FromLists(lists).value <==> DescribedIn(lists, r)
  {
    hide ParseGroupVersion, HasStatus, Describes;
    if lists != [] {
      var n := |lists| - 1;
      var last := lists[n];
      var gv := ParseGroupVersion(last.groupVersion).value;
      FromListsDescribe(lists[..n], r);
      FromListDescribes(last, gv, r);
      assert FromLists(lists).value ==
             FromLists(lists[..n]).value + FromList(gv, last.resources, |last.resources|);
      assert forall i :: 0 <= i < n ==> lists[..n][i] == lists[i];
    }
  }

  lemma FromListDescribes(list: APIResourceList, gv: (string, string), r: ServedResource)
    requires ParseGroupVersion(list.groupVersion) == Some(gv)
    ensures r in FromList(gv, list.resources, |list.resources|) <==>
            exists j :: 0 <= j < |list.resources| && Describes(list, list.resources[j], r)
  {
    FromListMembers(gv, list.resources, |list.resources|);
    forall j | 0 <= j < |list.resources|
      ensures Describes(list, list.resources[j], r) <==>
              IsPlain(list.resources[j]) && r == Served(gv, list.resources, list.resources[j])
    {
    }
  }

  lemma {:induction false} FilterMembers(rs: seq<ServedResource>, selectors: seq<APISelector>)
    ensures forall r :: r in Filter(rs, selectors) <==> r in rs && Matches(r.gvr, selectors)
  {
    if rs != [] {
      FilterMembers(rs[..|rs| - 1], selectors);
      assert rs == rs[..|rs| - 1] + [rs[|rs| - 1]];
    }
  }

  lemma {:induction false} FromListMembers(gv: (string, string), all: seq<APIResource>, n: nat)
    requires n <= |all|
    ensures forall r :: r in FromList(gv, all, n) <==>
              exists j :: 0 <= j < n && IsPlain(all[j]) && r == Served(gv, all, all[j])
  {
    if n > 0 {
      FromListMembers(gv, all, n - 1);
    }
  }

  /** What one list contributes. */
  lemma FromListHas(list: APIResourceList, gv: (string, string), g: GVR)
    requires ParseGroupVersion(list.groupVersion) == Some(gv)
    ensures var rs := FromList(gv, list.resources, |list.resources|);
            && PlainNames(rs)
            && (Has(rs, g) <==> exists j :: 0 <= j < |list.resources| && ListsAt(list, list.resources[j], g))
  {
    hide HasStatus;
    var rs := FromList(gv, list.resources, |list.resources|);
    FromListMembers(gv, list.resources, |list.resources|);
    forall j | 0 <= j < |list.resources| && ListsAt(list, list.resources[j], g) ensures Has(rs, g) {
      assert Served(gv, list.resources, list.resources[j]) in rs;
    }
    if Has(rs, g) {
      var r :| r in rs && r.gvr == g;
      var j :| 0 <= j < |list.resources| && IsPlain(list.resources[j]) &&
               r == Served(gv, list.resources, list.resources[j]);
      assert ListsAt(list, list.resources[j], g);
    }
  }

  lemma {:induction false} FromListsMembers(lists: seq<APIResourceList>, g: GVR)
    requires FromLists(lists).Some?
    ensures Has(FromLists(lists).value, g) <==> Lists(lists, g)
    ensures PlainNames(FromLists(lists).value)
  {
    hide ParseGroupVersion, HasStatus;
    if lists != [] {
      var n := |lists| - 1;
      var last := lists[n];
      var gv := ParseGroupVersion(last.groupVersion).value;
      var rest, more := FromLists(lists[..n]).value, FromList(gv, last.resources, |last.resources|);
      FromListsMembers(lists[..n], g);
      FromListHas(last, gv, g);
      assert FromLists(lists).value == rest + more;
      assert Has(rest + more, g) <==> Has(rest, g) || Has(more, g);
      assert forall i :: 0 <= i < n ==> lists[..n][i] == lists[i];
    }
  }
}
