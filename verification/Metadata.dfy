/**
 Objects as the proxy sees them, the cluster stamp it puts on them
 (pkg/apiserver/storage/metadata.go), and label selectors.
 */
module Metadata {
  import opened Order

  /** The one key used both as annotation and as virtual label (apis/v1alpha1/metadata.go). */
  const CLUSTER := "aggregation.ntnn.dev/cluster"

  /** `None` is a metadata field that is not there; Go reads it as an empty map. */
  type Meta = Option<map<string, string>>

  datatype Name = Name(namespace: string, name: string)

  datatype Object = Object(kind: string, namespace: string, name: string,
                           annotations: Meta, labels: Meta, spec: string, status: string)

  function NameOf(o: Object): Name {
    Name(o.namespace, o.name)
  }

  function Entries(m: Meta): map<string, string> {
    if m.Some? then m.value else map[]
  }

  /** The value of the cluster annotation, empty when it is not there. */
  function Annotation(m: Meta): string {
    if CLUSTER in Entries(m) then Entries(m)[CLUSTER] else ""
  }

  function Stamped(o: Object, cluster: string): Object {
    o.(annotations := Some(Entries(o.annotations)[CLUSTER := cluster]),
       labels := Some(Entries(o.labels)[CLUSTER := cluster]))
  }

  function Without(m: Meta): Meta {
    if m.Some? then Some(m.value - {CLUSTER}) else None
  }

  function Stripped(o: Object): Object {
    o.(annotations := Without(o.annotations), labels := Without(o.labels))
  }

  /** The object carries no aggregator metadata. */
  predicate Clean(o: Object) {
    CLUSTER !in Entries(o.annotations) && CLUSTER !in Entries(o.labels)
  }

  /** The object names `cluster` as its source, in both places. */
  predicate NamesSource(o: Object, cluster: string) {
    && CLUSTER in Entries(o.annotations) && Entries(o.annotations)[CLUSTER] == cluster
    && CLUSTER in Entries(o.labels) && Entries(o.labels)[CLUSTER] == cluster
  }

  /** Equality that does not tell an empty metadata map from an absent one. */
  predicate SameObject(a: Object, b: Object) {
    && Entries(a.annotations) == Entries(b.annotations)
    && Entries(a.labels) == Entries(b.labels)
    && a.(annotations := None, labels := None) == b.(annotations := None, labels := None)
  }

  /** The objects differ at most in what they say under the aggregator's key. */
  ghost predicate SameApart(a: Object, b: Object) {
    && a.(annotations := None, labels := None) == b.(annotations := None, labels := None)
    && forall k :: k != CLUSTER ==>
         && (k in Entries(a.annotations) <==> k in Entries(b.annotations))
         && (k in Entries(a.annotations) ==> Entries(a.annotations)[k] == Entries(b.annotations)[k])
         && (k in Entries(a.labels) <==> k in Entries(b.labels))
         && (k in Entries(a.labels) ==> Entries(a.labels)[k] == Entries(b.labels)[k])
  }

  /** Stamping is undone by stripping exactly on the objects that were clean. */
  lemma StripUndoesStamp(o: Object, cluster: string)
    ensures SameObject(Stripped(Stamped(o, cluster)), o) <==> Clean(o)
    ensures Clean(Stripped(o)) && NamesSource(Stamped(o, cluster), cluster)
    ensures SameObject(Stripped(Stamped(o, cluster)), Stripped(o))
    ensures SameApart(Stamped(o, cluster), o) && SameApart(Stripped(o), o)
  {
  }

  /** The heap object behind Go's *unstructured.Unstructured. */
  class Unstructured {
    var kind: string
    var namespace: string
    var name: string
    var annotations: Meta
    var labels: Meta
    var spec: string
    var status: string

    function Value(): Object
      reads this
    {
      Object(kind, namespace, name, annotations, labels, spec, status)
    }

    constructor (o: Object)
      ensures Value() == o
    {
      kind, namespace, name := o.kind, o.namespace, o.name;
      annotations, labels, spec, status := o.annotations, o.labels, o.spec, o.status;
    }

    method DeepCopy() returns (copy: Unstructured)
      ensures fresh(copy) && copy.Value() == Value()
    {
      copy := new Unstructured(Value());
    }

    /** Marks the object with its source cluster, in place. */
    method Stamp(cluster: string)
      modifies this`annotations, this`labels
      ensures Value() == Stamped(old(Value()), cluster)
    {
      var a := annotations;
      if a.None? {
        a := Some(map[]);
      }
      annotations := Some(a.value[CLUSTER := cluster]);
      var l := labels;
      if l.None? {
        l := Some(map[]);
      }
      labels := Some(l.value[CLUSTER := cluster]);
    }

    /** Removes the aggregator's metadata, in place. */
    method Strip()
      modifies this`annotations, this`labels
      ensures Value() == Stripped(old(Value()))
    {
      if annotations.Some? {
        annotations := Some(annotations.value - {CLUSTER});
      }
      if labels.Some? {
        labels := Some(labels.value - {CLUSTER});
      }
    }
  }

  // Label selectors.

  datatype Operator =
    | In(values: set<string>)
    | NotIn(values: set<string>)
    | Exists
    | DoesNotExist
    | GreaterThan(bound: int)
    | LessThan(bound: int)

  datatype Requirement = Requirement(key: string, op: Operator)

  /** The whole number a label value denotes, if it denotes one that fits 64 bits. */
  function ParseInt64(v: string): Option<int> {
    var negative := v != [] && v[0] == '-';
    var digits := if v != [] && (v[0] == '-' || v[0] == '+') then v[1..] else v;
    if digits == [] || exists i :: 0 <= i < |digits| && !('0' <= digits[i] <= '9') then None
    else
      var n := Decimal(digits);
      var value := if negative then -n else n;
      if -0x8000_0000_0000_0000 <= value < 0x8000_0000_0000_0000 then Some(value) else None
  }

  function Decimal(digits: string): int
    requires forall i :: 0 <= i < |digits| ==> '0' <= digits[i] <= '9'
  {
    if digits == [] then 0
    else Decimal(digits[..|digits| - 1]) * 10 + (digits[|digits| - 1] as int - '0' as int)
  }

  /** A sign counts, and each further digit counts in tens. */
  lemma ParsedNumbers(digits: string, d: char)
    requires digits != [] && forall i :: 0 <= i < |digits| ==> '0' <= digits[i] <= '9'
    requires ParseInt64(digits).Some? && '0' <= d <= '9'
    ensures var n := ParseInt64(digits).value;
            && n >= 0 && ParseInt64(['+'] + digits) == Some(n) && ParseInt64(['-'] + digits) == Some(-n)
            && ParseInt64([d]) == Some(d as int - '0' as int)
            && var m := n * 10 + (d as int - '0' as int);
            ParseInt64(digits + [d]) == if m < 0x8000_0000_0000_0000 then Some(m) else None
  {
    DecimalNatural(digits);
    assert (['+'] + digits)[1..] == digits && (['-'] + digits)[1..] == digits;
    var more := digits + [d];
    assert more[..|more| - 1] == digits;
    assert [d][..0] == [];
    assert Decimal([d]) == d as int - '0' as int;
  }

  lemma {:induction false} DecimalNatural(digits: string)
    requires forall i :: 0 <= i < |digits| ==> '0' <= digits[i] <= '9'
    ensures Decimal(digits) >= 0
  {
    if digits != [] {
      DecimalNatural(digits[..|digits| - 1]);
    }
  }

  predicate Meets(r: Requirement, labels: map<string, string>) {
    match r.op
    case In(values) => r.key in labels && labels[r.key] in values
    case NotIn(values) => r.key !in labels || labels[r.key] !in values
    case Exists => r.key in labels
    case DoesNotExist => r.key !in labels
    case GreaterThan(n) =>
      r.key in labels && var v := ParseInt64(labels[r.key]); v.Some? && v.value > n
    case LessThan(n) =>
      r.key in labels && var v := ParseInt64(labels[r.key]); v.Some? && v.value < n
  }

  /** What a requirement asks of one label; the values of In and NotIn are alternatives. */
  lemma RequirementLaws(key: string, a: set<string>, b: set<string>, v: string, n: int, labels: map<string, string>)
    ensures Meets(Requirement(key, Exists), labels) <==> exists x :: Meets(Requirement(key, In({x})), labels)
    ensures Meets(Requirement(key, In({v})), labels[key := v]) && !Meets(Requirement(key, In({})), labels)
    ensures Meets(Requirement(key, In(a + b)), labels) <==>
              Meets(Requirement(key, In(a)), labels) || Meets(Requirement(key, In(b)), labels)
    ensures Meets(Requirement(key, In(a * b)), labels) <==>
              Meets(Requirement(key, In(a)), labels) && Meets(Requirement(key, In(b)), labels)
    ensures Meets(Requirement(key, NotIn(a)), labels) <==> !Meets(Requirement(key, In(a)), labels)
    ensures Meets(Requirement(key, DoesNotExist), labels) <==> !Meets(Requirement(key, Exists), labels)
    ensures Meets(Requirement(key, GreaterThan(n)), labels) ==>
              Meets(Requirement(key, Exists), labels) && !Meets(Requirement(key, LessThan(n + 1)), labels)
    ensures key in labels && ParseInt64(labels[key]).Some? ==>
              (Meets(Requirement(key, GreaterThan(n)), labels) <==> !Meets(Requirement(key, LessThan(n + 1)), labels))
  {
    if Meets(Requirement(key, Exists), labels) {
      assert Meets(Requirement(key, In({labels[key]})), labels);
    }
  }

  /** A selector is nil or a conjunction of requirements; nil selects everything. */
  type Selector = Option<seq<Requirement>>

  predicate Selects(s: Selector, labels: map<string, string>) {
    s.Some? ==> forall i :: 0 <= i < |s.value| ==> Meets(s.value[i], labels)
  }

  /** No selector selects everything, and a list of requirements is their conjunction. */
  lemma SelectionLaws(a: seq<Requirement>, b: seq<Requirement>, r: Requirement, labels: map<string, string>)
    ensures Selects(None, labels) && Selects(Some([]), labels)
    ensures Selects(Some([r]), labels) <==> Meets(r, labels)
    ensures Selects(Some(a + b), labels) <==> Selects(Some(a), labels) && Selects(Some(b), labels)
  {
    assert Selects(Some([r]), labels) ==> Meets([r][0], labels);
    if Selects(Some(a + b), labels) {
      assert forall i :: 0 <= i < |a| ==> a[i] == (a + b)[i];
      assert forall i :: 0 <= i < |b| ==> b[i] == (a + b)[|a| + i];
    }
  }

  /** The cluster predicate the split returns, as the requirements it evaluates. */
  predicate MatchesCluster(clusterReqs: seq<Requirement>, cluster: string) {
    Selects(Some(clusterReqs), map[CLUSTER := cluster])
  }

  /** The two halves a split must produce: requirements off and on the cluster label. */
  function Keep(reqs: seq<Requirement>, onCluster: bool): seq<Requirement> {
    if reqs == [] then []
    else
      var last := reqs[|reqs| - 1];
      var rest := Keep(reqs[..|reqs| - 1], onCluster);
      if (last.key == CLUSTER) == onCluster then rest + [last] else rest
  }

  lemma {:induction false} KeepMembers(reqs: seq<Requirement>, onCluster: bool)
    ensures forall r :: r in Keep(reqs, onCluster) <==> r in reqs && (r.key == CLUSTER) == onCluster
  {
    if reqs != [] {
      KeepMembers(reqs[..|reqs| - 1], onCluster);
      assert reqs == reqs[..|reqs| - 1] + [reqs[|reqs| - 1]];
    }
  }

  function RemoteSelector(s: Selector): Selector {
    if s.Some? then Some(Keep(s.value, false)) else None
  }

  function ClusterRequirements(s: Selector): seq<Requirement> {
    if s.Some? then Keep(s.value, true) else []
  }

  predicate Picks(s: Selector, cluster: string) {
    MatchesCluster(ClusterRequirements(s), cluster)
  }

  /**
   The pushdown law: a selector holds of the stamped labels exactly when its cluster
   half accepts the cluster and its remote half holds of the labels as the member
   stores them, whatever those say about the cluster label.
   */
  lemma PushdownPreservesMeaning(s: Selector, stored: map<string, string>, cluster: string)
    ensures Selects(s, stored[CLUSTER := cluster]) <==>
            Picks(s, cluster) && Selects(RemoteSelector(s), stored)
  {
    if s.Some? {
      var reqs := s.value;
      KeepMembers(reqs, false);
      KeepMembers(reqs, true);
      var far, near := Keep(reqs, false), Keep(reqs, true);
      var stamped, alone := stored[CLUSTER := cluster], map[CLUSTER := cluster];
      forall r: Requirement
        ensures r.key != CLUSTER ==> Meets(r, stamped) == Meets(r, stored)
        ensures r.key == CLUSTER ==> Meets(r, stamped) == Meets(r, alone)
      {
      }
      if Selects(s, stamped) {
        forall i | 0 <= i < |far| ensures Meets(far[i], stored) { assert far[i] in far; }
        forall i | 0 <= i < |near| ensures Meets(near[i], alone) { assert near[i] in near; }
      }
      if Picks(s, cluster) && Selects(RemoteSelector(s), stored) {
        forall i | 0 <= i < |reqs| ensures Meets(reqs[i], stamped) {
          assert reqs[i] in reqs;
          assert reqs[i] in far || reqs[i] in near;
        }
      }
    }
  }

  /** Filtering at the member and by cluster is filtering the stamped object. */
  predicate SplitAgrees(selector: Selector, remote: Selector, clusterReqs: seq<Requirement>,
                        stored: map<string, string>, cluster: string)
  {
    Selects(selector, stored[CLUSTER := cluster]) <==>
    MatchesCluster(clusterReqs, cluster) && Selects(remote, stored)
  }

  /** Splits a selector into what the members evaluate and what the proxy evaluates. */
  method SplitClusterSelector(selector: Selector)
    returns (remote: Selector, clusterReqs: seq<Requirement>)
    ensures clusterReqs == ClusterRequirements(selector)
    ensures forall labels :: Selects(remote, labels) <==> Selects(RemoteSelector(selector), labels)
    ensures forall stored, cluster :: SplitAgrees(selector, remote, clusterReqs, stored, cluster)
  {
    remote, clusterReqs := selector, [];
    if selector.Some? && selector.value != [] {
      var far: seq<Requirement> := [];
      for i := 0 to |selector.value|
        invariant far == Keep(selector.value[..i], false)
        invariant clusterReqs == Keep(selector.value[..i], true)
      {
        var requirement := selector.value[i];
        assert selector.value[..i + 1][..i] == selector.value[..i];
        if requirement.key == CLUSTER {
          clusterReqs := clusterReqs + [requirement];
        } else {
          far := far + [requirement];
        }
      }
      assert selector.value[..|selector.value|] == selector.value;
      if clusterReqs != [] {
        remote := Some(far);
      } else {
        KeptWhole(selector.value);
      }
    }
    forall stored, cluster
      ensures SplitAgrees(selector, remote, clusterReqs, stored, cluster)
    {
      PushdownPreservesMeaning(selector, stored, cluster);
    }
  }

  lemma {:induction false} KeptWhole(reqs: seq<Requirement>)
    requires Keep(reqs, true) == []
    ensures Keep(reqs, false) == reqs
  {
    if reqs != [] {
      KeptWhole(reqs[..|reqs| - 1]);
      assert reqs == reqs[..|reqs| - 1] + [reqs[|reqs| - 1]];
    }
  }
}
