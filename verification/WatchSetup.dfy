/**
 How Watch sets itself up (pkg/apiserver/storage/watcher.go, lines 31-96): it lists and
 watches the selected members one after the other, in the order of a map iteration, while
 their logs keep growing, and gives everything up when a call fails.
 */
module WatchSetup {
  import opened Order
  import opened Metadata
  import opened Fleets
  import opened WatchLogs
  import opened Watcher
  import opened WatchStream

  type MemberLogs = map<string, seq<Entry>>

  predicate Grown(logs: MemberLogs, later: MemberLogs) {
    logs.Keys == later.Keys && forall c :: c in logs ==> logs[c] <= later[c]
  }

  /** The objects as a map by name; in a list of distinct names none is lost. */
  function Tabulated(items: seq<Object>): Contents {
    if items == [] then map[]
    else ApplyChange(Tabulated(items[..|items| - 1]), Change(Added, items[|items| - 1]))
  }

  /** A watch opened at a member. */
  class RemoteWatch {
    const cluster: string
    const from: nat
    var stopped: bool

    constructor (cluster: string, from: nat)
      ensures this.cluster == cluster && this.from == from && !stopped
    {
      this.cluster, this.from, stopped := cluster, from, false;
    }

    method Stop()
      modifies this
      ensures stopped
    {
      stopped := true;
    }
  }

  /**
   The members, changing under the caller; `launched` holds every watch ever opened on them,
   `failures` counts the calls that failed.
   */
  class Members {
    var logs: MemberLogs
    var launched: set<RemoteWatch>
    var failures: nat

    constructor (logs: MemberLogs)
      ensures this.logs == logs && launched == {} && failures == 0
    {
      this.logs, launched, failures := logs, {}, 0;
    }

    /** Time passes: any member may log any number of entries. */
    method Evolve()
      modifies this`logs
      ensures Grown(old(logs), logs)
    {
      assert Grown(logs, logs);
      var later :| Grown(logs, later);
      logs := later;
    }

    /** Lists a member's selected objects and the position they were listed at; the call may fail. */
    method List(c: string, sel: Selection, limit: nat) returns (r: Option<(seq<Object>, nat)>)
      requires c in logs
      modifies this`logs, this`failures
      ensures Grown(old(logs), logs) && failures == old(failures) + if r.None? then 1 else 0
      ensures r.Some? ==> |old(logs)[c]| <= r.value.1 <= |logs[c]|
      ensures r.Some? && limit == 0 ==>
                var contents := View(At(logs[c], r.value.1), sel);
                Tabulated(r.value.0) == contents && |r.value.0| == |contents|
    {
      Evolve();
      var fails: bool := *;
      if fails {
        failures := failures + 1;
        return None;
      }
      var rv := |logs[c]|;
      var contents := View(At(logs[c], rv), sel);
      AtFacts(logs[c], logs[c], rv);
      var items := Enumerate(contents);
      if 0 < limit < |items| {
        items := items[..limit];
      }
      ghost var log := logs[c];
      Evolve();
      AtFacts(log, logs[c], rv);
      return Some((items, rv));
    }

    /** Opens a watch on a member from a position; the call may fail. */
    method Watch(c: string, from: nat) returns (r: Option<RemoteWatch>)
      modifies this
      ensures Grown(old(logs), logs) && failures == old(failures) + if r.None? then 1 else 0
      ensures r.None? ==> launched == old(launched)
      ensures r.Some? ==> fresh(r.value) && launched == old(launched) + {r.value}
      ensures r.Some? ==> !r.value.stopped && r.value.cluster == c && r.value.from == from
    {
      Evolve();
      var fails: bool := *;
      if fails {
        failures := failures + 1;
        return None;
      }
      var w := new RemoteWatch(c, from);
      launched := launched + {w};
      return Some(w);
    }
  }

  /** The values of a map, in some order. */
  method Enumerate(m: Contents) returns (items: seq<Object>)
    requires WellNamed(m)
    ensures Tabulated(items) == m && |items| == |m|
  {
    items := [];
    var todo := m;
    while todo != map[]
      invariant Tabulated(items) == m - todo.Keys && |items| + |todo| == |m|
      invariant forall n :: n in todo ==> n in m && todo[n] == m[n]
      decreases |todo|
    {
      var n :| n in todo;
      var more := items + [m[n]];
      assert more[..|more| - 1] == items;
      OneLess(m, todo, n);
      items, todo := more, todo - {n};
    }
    assert m - todo.Keys == m;
  }

  lemma OneLess(m: Contents, todo: Contents, n: Name)
    requires n in todo && n in m
    ensures var rest := todo - {n}; |rest| == |todo| - 1 && m - rest.Keys == (m - todo.Keys)[n := m[n]]
  {
    var rest := todo - {n};
    assert rest.Keys == todo.Keys - {n};
    assert |rest| == |rest.Keys| && |todo| == |todo.Keys|;
  }

  method StopAll(remotes: map<string, RemoteWatch>)
    modifies remotes.Values
    ensures forall w :: w in remotes.Values ==> w.stopped
  {
    var todo := remotes;
    while todo != map[]
      invariant forall c :: c in todo ==> c in remotes && todo[c] == remotes[c]
      invariant forall c :: c in remotes ==> c in todo || remotes[c].stopped
      decreases |todo|
    {
      var c :| c in todo;
      todo[c].Stop();
      var rest := todo - {c};
      assert rest.Keys == todo.Keys - {c};
      assert |rest| == |rest.Keys| && |todo| == |todo.Keys|;
      todo := rest;
    }
  }

  // What the loop has put together so far.

  ghost predicate Known(names: seq<string>, logs: MemberLogs) {
    forall i :: 0 <= i < |names| ==> names[i] in logs
  }

  function LogsOf(names: seq<string>, logs: MemberLogs): (r: seq<seq<Entry>>)
    requires Known(names, logs)
    ensures |r| == |names| && forall i :: 0 <= i < |names| ==> r[i] == logs[names[i]]
  {
    seq(|names|, i requires 0 <= i < |names| => logs[names[i]])
  }

  ghost predicate Gathered(names: seq<string>, rv: seq<nat>, initial: seq<Event>, sel: Selection, watchList: bool,
                           logs: MemberLogs)
  {
    && |names| == |rv| && Distinct(names) && Known(names, logs)
    && (forall i :: 0 <= i < |names| ==> rv[i] <= |logs[names[i]]|)
    && (!watchList ==> initial == [])
    && (watchList ==>
          && (forall j :: 0 <= j < |initial| ==> initial[j].Observe? && initial[j].kind == Added)
          && Mirrors(names, ViewsAt(LogsOf(names, logs), rv, sel), Replay(initial)))
  }

  function Adds(c: string, items: seq<Object>): (events: seq<Event>)
    ensures |events| == |items| && forall j :: 0 <= j < |events| ==> events[j].Observe? && events[j].kind == Added
  {
    if items == [] then []
    else Adds(c, items[..|items| - 1]) + [Observe(Added, Stamped(items[|items| - 1], c))]
  }

  lemma GatheredGrows(names: seq<string>, rv: seq<nat>, initial: seq<Event>, sel: Selection, watchList: bool,
                    logs: MemberLogs, later: MemberLogs)
    requires Gathered(names, rv, initial, sel, watchList, logs) && Grown(logs, later)
    ensures Gathered(names, rv, initial, sel, watchList, later)
  {
    ViewsGrow(LogsOf(names, logs), LogsOf(names, later), rv, sel);
  }

  lemma MirrorsNothingNew(names: seq<string>, views: seq<Contents>, m: Mirror, c: string)
    requires Mirrors(names, views, m)
    ensures Mirrors(names + [c], views + [map[]], m)
  {
    var names', views' := names + [c], views + [map[]];
    assert forall i :: 0 <= i < |names| ==> names'[i] == names[i] && views'[i] == views[i];
  }

  /** Replaying the stamped additions of one more member adds exactly its listing to the mirror. */
  lemma {:induction false} MirrorsListing(names: seq<string>, views: seq<Contents>, initial: seq<Event>, c: string,
                                          items: seq<Object>)
    requires Distinct(names) && c !in names && Mirrors(names, views, Replay(initial))
    ensures Mirrors(names + [c], views + [Tabulated(items)], Replay(initial + Adds(c, items)))
  {
    if items == [] {
      assert initial + Adds(c, items) == initial;
      MirrorsNothingNew(names, views, Replay(initial), c);
    } else {
      var init, last := items[..|items| - 1], items[|items| - 1];
      MirrorsListing(names, views, initial, c, init);
      ReplayAdds(initial, c, items);
      MirrorsAdd(names, views, Tabulated(init), Replay(initial + Adds(c, init)), c, last);
    }
  }

  lemma ReplayAdds(initial: seq<Event>, c: string, items: seq<Object>)
    requires items != []
    ensures var init, last := items[..|items| - 1], items[|items| - 1];
            Replay(initial + Adds(c, items)) ==
            Replayed(Replay(initial + Adds(c, init)), Observe(Added, Stamped(last, c)))
  {
    var events := initial + Adds(c, items);
    assert events[..|events| - 1] == initial + Adds(c, items[..|items| - 1]);
  }

  lemma MirrorsAdd(names: seq<string>, views: seq<Contents>, v: Contents, m: Mirror, c: string, o: Object)
    requires Distinct(names) && c !in names && Mirrors(names + [c], views + [v], m)
    ensures Mirrors(names + [c], views + [ApplyChange(v, Change(Added, o))], Replayed(m, Observe(Added, Stamped(o, c))))
  {
    MirrorsChange(names + [c], views + [v], m, |names|, Change(Added, o));
    assert (views + [v])[|names| := ApplyChange(v, Change(Added, o))] == views + [ApplyChange(v, Change(Added, o))];
  }

  lemma GatheredExtends(names: seq<string>, rv: seq<nat>, initial: seq<Event>, sel: Selection, watchList: bool,
                      logs: MemberLogs, c: string, items: seq<Object>, n: nat)
    requires Gathered(names, rv, initial, sel, watchList, logs)
    requires c in logs && c !in names && n <= |logs[c]|
    requires watchList ==> Tabulated(items) == View(At(logs[c], n), sel)
    ensures Gathered(names + [c], rv + [n], if watchList then initial + Adds(c, items) else initial,
                     sel, watchList, logs)
  {
    hide Mirrors, Replay, At, View, Tabulated;
    var names', rv' := names + [c], rv + [n];
    assert forall i :: 0 <= i < |names'| ==> names'[i] in logs && rv'[i] <= |logs[names'[i]]|;
    if watchList {
      var views := ViewsAt(LogsOf(names, logs), rv, sel);
      MirrorsListing(names, views, initial, c, items);
      assert ViewsAt(LogsOf(names', logs), rv', sel) == views + [Tabulated(items)];
    }
  }

  lemma GatheredNothing(sel: Selection, watchList: bool, logs: MemberLogs)
    ensures Gathered([], [], [], sel, watchList, logs)
  {
  }

  lemma GatheredHandsOver(names: seq<string>, rv: seq<nat>, initial: seq<Event>, sel: Selection, watchList: bool,
                          logs: MemberLogs)
    requires Gathered(names, rv, initial, sel, watchList, logs)
    ensures var all := if watchList then initial + [InitialDone] else initial;
            Known(names, logs) && SetUp(Config(names, sel, rv, watchList, all), LogsOf(names, logs))
  {
  }

  // What is watched.

  /** The configuration watches the picked ones of the clusters, each with the remote half of the query. */
  ghost predicate Watches(cfg: Config, q: Query, clusters: set<string>) {
    && (forall c :: c in cfg.names <==> c in clusters && Picks(q.selector, c))
    && (forall o :: cfg.sel(o) <==>
          InScope(q.scope, NameOf(o)) && q.fields(o) && Selects(RemoteSelector(q.selector), Entries(o.labels)))
  }

  ghost predicate OneEach(remotes: map<string, RemoteWatch>, names: seq<string>, rv: seq<nat>)
    reads remotes.Values
  {
    && |names| == |rv| && (forall c :: c in names <==> c in remotes)
    && forall i :: 0 <= i < |names| ==>
         && names[i] in remotes && !remotes[names[i]].stopped
         && remotes[names[i]].cluster == names[i] && remotes[names[i]].from == rv[i]
  }

  method Selected(clusters: set<string>, clusterReqs: seq<Requirement>) returns (selected: set<string>)
    ensures forall c :: c in selected <==> c in clusters && MatchesCluster(clusterReqs, c)
  {
    selected := {};
    var todo := clusters;
    while todo != {}
      invariant todo <= clusters
      invariant forall c :: c in selected <==> c in clusters && c !in todo && MatchesCluster(clusterReqs, c)
      decreases todo
    {
      var c :| c in todo;
      todo := todo - {c};
      if MatchesCluster(clusterReqs, c) {
        selected := selected + {c};
      }
    }
  }

  /** Each position was the end of its member's log at some time between these two. */
  ghost predicate Current(names: seq<string>, rv: seq<nat>, logs: MemberLogs, later: MemberLogs) {
    && |names| == |rv| && Known(names, logs) && Known(names, later)
    && forall i :: 0 <= i < |names| ==> |logs[names[i]]| <= rv[i] <= |later[names[i]]|
  }

  /** Lists one member and opens a watch on it from where it was listed; either call may fail. */
  method EstablishOne(members: Members, c: string, ghost names: seq<string>, ghost rv: seq<nat>, initial: seq<Event>,
                      sel: Selection, watchList: bool)
    returns (r: Option<(RemoteWatch, seq<Event>)>)
    requires c in members.logs && c !in names
    requires Gathered(names, rv, initial, sel, watchList, members.logs)
    modifies members
    ensures Grown(old(members.logs), members.logs)
    ensures members.failures == old(members.failures) + if r.None? then 1 else 0
    ensures r.None? ==> members.launched == old(members.launched)
    ensures r.Some? ==> fresh(r.value.0) && members.launched == old(members.launched) + {r.value.0}
    ensures r.Some? ==> !r.value.0.stopped && r.value.0.cluster == c
    ensures r.Some? ==> c in members.logs && |old(members.logs)[c]| <= r.value.0.from <= |members.logs[c]|
    ensures r.Some? ==> Gathered(names + [c], rv + [r.value.0.from], r.value.1, sel, watchList, members.logs)
  {
    var list := members.List(c, sel, if watchList then 0 else 1);
    if list.None? {
      return None;
    }
    var (items, n) := list.value;
    ghost var logs := members.logs;
    GatheredGrows(names, rv, initial, sel, watchList, old(members.logs), logs);
    GatheredExtends(names, rv, initial, sel, watchList, logs, c, items, n);
    var events := initial;
    if watchList {
      events := AddStamped(initial, c, items);
    }
    var remoteWatch := members.Watch(c, n);
    if remoteWatch.None? {
      return None;
    }
    GatheredGrows(names + [c], rv + [n], events, sel, watchList, logs, members.logs);
    return Some((remoteWatch.value, events));
  }

  lemma CurrentSnoc(names: seq<string>, rv: seq<nat>, first: MemberLogs, logs: MemberLogs, later: MemberLogs,
                    c: string, from: nat)
    requires Current(names, rv, first, logs) && Grown(first, logs) && Grown(logs, later)
    requires c in logs && |logs[c]| <= from <= |later[c]|
    ensures Current(names + [c], rv + [from], first, later)
  {
    var names', rv' := names + [c], rv + [from];
    forall i | 0 <= i < |names'| ensures |first[names'[i]]| <= rv'[i] <= |later[names'[i]]| {
      if i < |names| {
        assert names'[i] == names[i] && rv'[i] == rv[i];
      }
    }
  }

  lemma NothingOpened(logs: MemberLogs)
    ensures OneEach(map[], [], []) && Current([], [], logs, logs)
  {
  }

  lemma OneMore(remotes: map<string, RemoteWatch>, names: seq<string>, rv: seq<nat>, c: string, w: RemoteWatch)
    requires OneEach(remotes, names, rv) && c !in names && !w.stopped && w.cluster == c
    ensures OneEach(remotes[c := w], names + [c], rv + [w.from])
    ensures remotes[c := w].Values == remotes.Values + {w}
  {
    var more := remotes[c := w];
    assert c !in remotes;
    assert forall x :: x in remotes ==> more[x] == remotes[x];
    forall v | v in remotes.Values + {w} ensures v in more.Values {
      if v == w {
        assert more[c] == w;
      } else {
        var x :| x in remotes && remotes[x] == v;
        assert more[x] == v;
      }
    }
    var names' := names + [c];
    assert forall i :: 0 <= i < |names| ==> names'[i] == names[i];
  }

  /** The loop over the selected members; it stops what it has opened when a call fails. */
  method EstablishAll(members: Members, selected: set<string>, sel: Selection, watchList: bool)
    returns (ok: bool, names: seq<string>, rv: seq<nat>, initial: seq<Event>, remotes: map<string, RemoteWatch>)
    requires selected <= members.logs.Keys
    modifies members
    ensures Grown(old(members.logs), members.logs)
    ensures ok <==> members.failures == old(members.failures)
    ensures members.failures >= old(members.failures)
    ensures members.launched == old(members.launched) + remotes.Values && fresh(remotes.Values)
    ensures !ok ==> forall w :: w in remotes.Values ==> w.stopped
    ensures ok ==> forall c :: c in names <==> c in selected
    ensures ok ==> Gathered(names, rv, initial, sel, watchList, members.logs) && OneEach(remotes, names, rv)
    ensures ok ==> Current(names, rv, old(members.logs), members.logs)
  {
    hide Gathered, OneEach, Current;
    remotes, names, rv, initial := map[], [], [], [];
    GatheredNothing(sel, watchList, members.logs);
    NothingOpened(members.logs);
    var todo := selected;
    while todo != {}
      invariant todo <= selected && forall c :: c in names <==> c in selected && c !in todo
      invariant Grown(old(members.logs), members.logs)
      invariant Gathered(names, rv, initial, sel, watchList, members.logs)
      invariant OneEach(remotes, names, rv)
      invariant Current(names, rv, old(members.logs), members.logs)
      invariant members.failures == old(members.failures)
      invariant members.launched == old(members.launched) + remotes.Values && fresh(remotes.Values)
      decreases todo
    {
      var c :| c in todo;
      todo := todo - {c};
      ghost var logs := members.logs;
      var one := EstablishOne(members, c, names, rv, initial, sel, watchList);
      if one.None? {
        StopAll(remotes);
        return false, names, rv, initial, remotes;
      }
      var (remoteWatch, events) := one.value;
      OneMore(remotes, names, rv, c, remoteWatch);
      CurrentSnoc(names, rv, old(members.logs), logs, members.logs, c, remoteWatch.from);
      names, rv, initial := names + [c], rv + [remoteWatch.from], events;
      remotes := remotes[c := remoteWatch];
    }
    ok := true;
  }

  /**
   Establishes the remote watches.  On success each picked member has one running watch that
   starts where the member was listed, at a position that was current during the call, and
   nothing else was opened.  It fails exactly if a call to a member failed; then every watch that
   had been opened is stopped and the context is cancelled.
   */
  method Establish(members: Members, clusters: set<string>, namespaced: bool, namespace: string, selector: Selector,
                   fields: Object -> bool, watchList: bool)
    returns (r: Option<Config>, remotes: map<string, RemoteWatch>, cancelled: bool)
    requires clusters <= members.logs.Keys
    modifies members
    ensures Grown(old(members.logs), members.logs)
    ensures cancelled == r.None? && (r.None? <==> members.failures > old(members.failures))
    ensures members.launched == old(members.launched) + remotes.Values && fresh(remotes.Values)
    ensures r.None? ==> forall w :: w in remotes.Values ==> w.stopped
    ensures r.Some? && namespaced && namespace != "" ==> Watches(r.value, Query(namespace, selector, fields), clusters)
    ensures r.Some? && (!namespaced || namespace == "") ==> Watches(r.value, Query("", selector, fields), clusters)
    ensures r.Some? ==> r.value.watchList == watchList
    ensures r.Some? ==> OneEach(remotes, r.value.names, r.value.rv)
    ensures r.Some? ==> Current(r.value.names, r.value.rv, old(members.logs), members.logs)
    ensures r.Some? ==> Known(r.value.names, members.logs) && SetUp(r.value, LogsOf(r.value.names, members.logs))
  {
    hide Gathered, SetUp, OneEach, Current, Selects, MatchesCluster;
    var scope := if namespaced then namespace else "";
    var remote, clusterReqs := SplitClusterSelector(selector);
    var sel := o => InScope(scope, NameOf(o)) && fields(o) && Selects(remote, Entries(o.labels));
    var selected := Selected(clusters, clusterReqs);
    var ok, names, rv, initial, watches := EstablishAll(members, selected, sel, watchList);
    if !ok {
      return None, watches, true;
    }
    GatheredHandsOver(names, rv, initial, sel, watchList, members.logs);
    if watchList {
      initial := initial + [InitialDone];
    }
    return Some(Config(names, sel, rv, watchList, initial)), watches, false;
  }

  /** Stamps the listed items and appends them as additions. */
  method AddStamped(before: seq<Event>, c: string, items: seq<Object>) returns (events: seq<Event>)
    ensures events == before + Adds(c, items)
  {
    events := before;
    for i := 0 to |items|
      invariant events == before + Adds(c, items[..i])
    {
      assert items[..i + 1][..i] == items[..i];
      events := events + [Observe(Added, Stamped(items[i], c))];
    }
    assert items[..|items|] == items;
  }

  // The whole of a watch-list watch.

  /** Every picked member holds in f what its log says at the position the delivered events reach. */
  ghost predicate Snapshot(cfg: Config, s: State, f: Fleet, clusters: set<string>) {
    && f.Keys == clusters && Shaped(cfg, s)
    && forall i :: 0 <= i < |cfg.names| ==>
         && 0 <= Settled(s.fwds[i]) <= |s.remotes[i].items| && Position(cfg, s, i) <= |s.remotes[i].log|
         && cfg.names[i] in f && f[cfg.names[i]] == At(s.remotes[i].log, Position(cfg, s, i))
  }

  /**
   The watch-list form serves the query: after the initial-events bookmark, in every state of
   every run, the client's replay is "stamp everything, keep what the whole selector accepts"
   over the members as they were at the positions reached.
   */
  lemma WatchListServesQuery(cfg: Config, q: Query, clusters: set<string>, s: State, steps: seq<Step>, s': State,
                             f: Fleet)
    requires Starts(cfg, s) && Leads(cfg, s, steps, s') && Watches(cfg, q, clusters)
    requires exists j :: 0 <= j < |s'.out| && s'.out[j].event.InitialDone?
    requires Snapshot(cfg, s', f, clusters)
    ensures var m := Replay(Events(s'.out));
            forall c, n :: ((c, n) in m <==> Wants(f, q, c, n)) && ((c, n) in m ==> m[(c, n)] == Stamped(f[c][n], c))
  {
    hide Starts, Leads, Watches, Wants, Replay;
    WatchListReplay(cfg, s, steps, s');
    var positions := seq(|cfg.names|, i requires 0 <= i < |cfg.names| => Position(cfg, s', i));
    var views := ViewsAt(Logs(s'.remotes), positions, cfg.sel);
    forall i | 0 <= i < |cfg.names| ensures WellNamed(f[cfg.names[i]]) && views[i] == View(f[cfg.names[i]], cfg.sel) {
      AtFacts(s'.remotes[i].log, s'.remotes[i].log, positions[i]);
    }
    MirrorsWanted(cfg, q, clusters, views, Replay(Events(s'.out)), f);
  }

  /** A mirror of the watched members' views is a mirror of what the query wants. */
  lemma MirrorsWanted(cfg: Config, q: Query, clusters: set<string>, views: seq<Contents>, m: Mirror, f: Fleet)
    requires Mirrors(cfg.names, views, m) && Watches(cfg, q, clusters) && f.Keys == clusters
    requires forall i :: 0 <= i < |cfg.names| ==>
               cfg.names[i] in f && WellNamed(f[cfg.names[i]]) && views[i] == View(f[cfg.names[i]], cfg.sel)
    ensures forall c, n :: ((c, n) in m <==> Wants(f, q, c, n)) && ((c, n) in m ==> m[(c, n)] == Stamped(f[c][n], c))
  {
    hide Mirrors, Watches;
    forall c, n ensures ((c, n) in m <==> Wants(f, q, c, n)) && ((c, n) in m ==> m[(c, n)] == Stamped(f[c][n], c)) {
      MirrorAt(cfg.names, views, m, c, n);
      ViewIsWanted(cfg, q, clusters, f, c, n);
    }
  }

  lemma ViewIsWanted(cfg: Config, q: Query, clusters: set<string>, f: Fleet, c: string, n: Name)
    requires Watches(cfg, q, clusters) && f.Keys == clusters && (c in cfg.names ==> c in f && WellNamed(f[c]))
    ensures Wants(f, q, c, n) <==> c in cfg.names && n in View(f[c], cfg.sel)
    ensures c in cfg.names && n in View(f[c], cfg.sel) ==> View(f[c], cfg.sel)[n] == f[c][n]
  {
    if c in f && n in f[c] {
      PushdownPreservesMeaning(q.selector, Entries(f[c][n].labels), c);
    }
  }

  lemma MirrorAt(names: seq<string>, views: seq<Contents>, m: Mirror, c: string, n: Name)
    requires Mirrors(names, views, m)
    ensures (c, n) in m <==> exists i :: 0 <= i < |names| && names[i] == c && n in views[i]
    ensures forall i :: 0 <= i < |names| && names[i] == c && n in views[i] ==> m[(c, n)] == Stamped(views[i][n], c)
  {
  }
}
