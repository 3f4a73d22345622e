/**
 Members as event logs: a resourceVersion is a position in the log, a list at that
 position sees what the log built up to it, and a watch from there reports the later
 entries that concern the selection.
 */
module WatchLogs {
  import opened Order
  import opened Metadata

  datatype Entry = Put(obj: Object) | Remove(name: Name)

  type Contents = map<Name, Object>

  /** The selection a member evaluates: label and field selectors and the namespace. */
  type Selection = Object -> bool

  function Apply(m: Contents, e: Entry): Contents {
    match e
    case Put(o) => m[NameOf(o) := o]
    case Remove(n) => m - {n}
  }

  function At(log: seq<Entry>, rv: nat): Contents
    requires rv <= |log|
  {
    if rv == 0 then map[] else Apply(At(log, rv - 1), log[rv - 1])
  }

  ghost predicate WellNamed(m: Contents) {
    forall n :: n in m ==> NameOf(m[n]) == n
  }

  lemma {:induction false} AtFacts(log: seq<Entry>, longer: seq<Entry>, rv: nat)
    requires rv <= |log| && log <= longer
    ensures At(log, rv) == At(longer, rv) && WellNamed(At(log, rv))
  {
    if rv > 0 {
      AtFacts(log, longer, rv - 1);
    }
  }

  function View(m: Contents, sel: Selection): Contents {
    map n | n in m && sel(m[n]) :: m[n]
  }

  datatype Kind = Added | Modified | Deleted

  datatype Change = Change(kind: Kind, obj: Object)

  /** What a watch with this selection reports about entry e. */
  function Observed(m: Contents, e: Entry, sel: Selection): Option<Change> {
    match e
    case Put(o) =>
      var was := NameOf(o) in m && sel(m[NameOf(o)]);
      if sel(o) then Some(Change(if was then Modified else Added, o))
      else if was then Some(Change(Deleted, m[NameOf(o)]))
      else None
    case Remove(n) =>
      if n in m && sel(m[n]) then Some(Change(Deleted, m[n])) else None
  }

  function ApplyChange(v: Contents, ch: Change): Contents {
    if ch.kind == Deleted then v - {NameOf(ch.obj)} else v[NameOf(ch.obj) := ch.obj]
  }

  lemma ObservedTracksView(m: Contents, e: Entry, sel: Selection)
    requires WellNamed(m)
    ensures View(Apply(m, e), sel) ==
            match Observed(m, e, sel)
            case None => View(m, sel)
            case Some(ch) => ApplyChange(View(m, sel), ch)
  {
  }

  /** What a remote watch delivers. `upto` is the log position just after the reported entry. */
  datatype Item = Report(change: Change, upto: nat) | Progress | Failure

  /** None of the entries from one position to the other concerns the selection. */
  ghost predicate Silent(log: seq<Entry>, sel: Selection, from: nat, till: nat) {
    from <= till <= |log| && forall p :: from <= p < till ==> Observed(At(log, p), log[p], sel).None?
  }

  /** The items are the reports for the entries from rv to p, with other items interspersed. */
  ghost predicate StreamOf(log: seq<Entry>, sel: Selection, rv: nat, items: seq<Item>, p: nat)
    decreases |items|
  {
    && rv <= p <= |log|
    && if items == [] then Silent(log, sel, rv, p)
       else
         var init, last := items[..|items| - 1], items[|items| - 1];
         match last
         case Report(ch, upto) =>
           && rv < upto <= p && Silent(log, sel, upto, p)
           && Observed(At(log, upto - 1), log[upto - 1], sel) == Some(ch)
           && StreamOf(log, sel, rv, init, upto - 1)
         case _ => StreamOf(log, sel, rv, init, p)
  }

  /** The view after the reported changes. */
  function Fold(v: Contents, items: seq<Item>): Contents {
    if items == [] then v
    else
      var rest := Fold(v, items[..|items| - 1]);
      match items[|items| - 1]
      case Report(ch, _) => ApplyChange(rest, ch)
      case _ => rest
  }

  /** The log position the reports account for. */
  function Covered(rv: nat, items: seq<Item>): nat {
    if items == [] then rv
    else match items[|items| - 1]
         case Report(_, upto) => upto
         case _ => Covered(rv, items[..|items| - 1])
  }

  lemma {:induction false} SilentKeepsView(log: seq<Entry>, sel: Selection, from: nat, till: nat)
    requires Silent(log, sel, from, till)
    ensures View(At(log, till), sel) == View(At(log, from), sel)
    decreases till
  {
    if from < till {
      SilentKeepsView(log, sel, from, till - 1);
      AtFacts(log, log, till - 1);
      ObservedTracksView(At(log, till - 1), log[till - 1], sel);
    }
  }

  /** Folding the reports over the listed view gives the view at the position they cover: no gap, no overlap. */
  lemma {:induction false} StreamTracksView(log: seq<Entry>, sel: Selection, rv: nat, items: seq<Item>, p: nat)
    requires StreamOf(log, sel, rv, items, p)
    ensures rv <= Covered(rv, items) <= p
    ensures Fold(View(At(log, rv), sel), items) == View(At(log, Covered(rv, items)), sel) == View(At(log, p), sel)
    decreases |items|
  {
    if items == [] {
      SilentKeepsView(log, sel, rv, p);
    } else {
      var init, last := items[..|items| - 1], items[|items| - 1];
      if last.Report? {
        StreamTracksView(log, sel, rv, init, last.upto - 1);
        AtFacts(log, log, last.upto - 1);
        ObservedTracksView(At(log, last.upto - 1), log[last.upto - 1], sel);
        SilentKeepsView(log, sel, last.upto, p);
      } else {
        StreamTracksView(log, sel, rv, init, p);
      }
    }
  }

  lemma {:induction false} StreamPrefix(log: seq<Entry>, sel: Selection, rv: nat, items: seq<Item>, p: nat, k: nat)
    requires StreamOf(log, sel, rv, items, p) && k <= |items|
    ensures exists q :: StreamOf(log, sel, rv, items[..k], q)
    decreases |items|
  {
    if k == |items| {
      assert items[..k] == items;
    } else {
      var init, last := items[..|items| - 1], items[|items| - 1];
      StreamPrefix(log, sel, rv, init, if last.Report? then last.upto - 1 else p, k);
      assert init[..k] == items[..k];
    }
  }

  lemma {:induction false} StreamGrows(log: seq<Entry>, longer: seq<Entry>, sel: Selection, rv: nat,
                                       items: seq<Item>, p: nat)
    requires StreamOf(log, sel, rv, items, p) && log <= longer
    ensures StreamOf(longer, sel, rv, items, p)
    decreases |items|
  {
    forall q | 0 <= q < |log| ensures At(log, q) == At(longer, q) {
      AtFacts(log, longer, q);
    }
    if items != [] {
      var init, last := items[..|items| - 1], items[|items| - 1];
      StreamGrows(log, longer, sel, rv, init, if last.Report? then last.upto - 1 else p);
    }
  }

  /** The remote reads one more log entry: it reports it, or passes over it silently. */
  lemma {:induction false} StreamAdvances(log: seq<Entry>, sel: Selection, rv: nat, items: seq<Item>, p: nat)
    requires StreamOf(log, sel, rv, items, p) && p < |log|
    ensures var ch := Observed(At(log, p), log[p], sel);
            match ch
            case None => StreamOf(log, sel, rv, items, p + 1)
            case Some(change) => StreamOf(log, sel, rv, items + [Report(change, p + 1)], p + 1)
    decreases |items|
  {
    var ch := Observed(At(log, p), log[p], sel);
    if ch.None? {
      if items != [] && !items[|items| - 1].Report? {
        StreamAdvances(log, sel, rv, items[..|items| - 1], p);
      }
    } else {
      var more := items + [Report(ch.value, p + 1)];
      assert more[..|more| - 1] == items;
    }
  }

  lemma StreamIdles(log: seq<Entry>, sel: Selection, rv: nat, items: seq<Item>, p: nat, item: Item)
    requires StreamOf(log, sel, rv, items, p) && !item.Report?
    ensures StreamOf(log, sel, rv, items + [item], p)
  {
  }
}
