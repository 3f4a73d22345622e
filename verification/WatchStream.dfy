/**
 What the aggregate watch delivers: the shape of the stream, and the replay theorem for
 its watch-list form.
 */
module WatchStream {
  import opened Order
  import opened Metadata
  import opened WatchLogs
  import opened Watcher

  /** How many of the received items are dealt with: delivered, or skipped as bookmarks. */
  function Settled(f: Forwarder): int {
    f.taken - if f.pc.Holding? || f.lost then 1 else 0
  }

  ghost predicate ForwarderOk(f: Forwarder, items: seq<Item>) {
    && f.taken <= |items|
    && (f.pc.Unspawned? ==> f.taken == 0)
    && (f.pc.Holding? ==> f.taken > 0 && items[f.taken - 1] == f.pc.item && !f.pc.item.Progress?)
    && (f.lost ==> f.taken > 0 && !items[f.taken - 1].Progress? && (f.pc.Returning? || f.pc.Ended?))
  }

  function RelayAll(c: string, items: seq<Item>): seq<Event> {
    if items == [] then []
    else
      var event := Relay(c, items[|items| - 1]);
      RelayAll(c, items[..|items| - 1]) + if event.Some? then [event.value] else []
  }

  /** The events delivered from member i, in the order of delivery. */
  function Delivered(out: seq<Sent>, i: nat): seq<Event> {
    if out == [] then []
    else
      var last := out[|out| - 1];
      Delivered(out[..|out| - 1], i) + if last.FromRemote? && last.member == i then [last.event] else []
  }

  lemma RelaySnoc(c: string, items: seq<Item>, k: nat)
    requires k < |items|
    ensures RelayAll(c, items[..k + 1]) ==
            RelayAll(c, items[..k]) + if Relay(c, items[k]).Some? then [Relay(c, items[k]).value] else []
  {
    assert items[..k + 1][..k] == items[..k];
  }

  lemma DeliveredSnoc(out: seq<Sent>, x: Sent, i: nat)
    ensures Delivered(out + [x], i) == Delivered(out, i) + if x.FromRemote? && x.member == i then [x.event] else []
  {
  }

  /** Initial events first and in order, live events only after all of them. */
  ghost predicate Ordered(initial: seq<Event>, out: seq<Sent>) {
    && (forall j :: 0 <= j < |out| && j < |initial| ==> out[j] == FromInitial(initial[j]))
    && (forall j :: |initial| <= j < |out| ==> out[j].FromRemote? && !out[j].event.InitialDone?)
  }

  ghost predicate Stream(cfg: Config, s: State) {
    && Control(cfg, s) && Ordered(cfg.initial, s.out)
    && (s.fanIn.Initial? ==> |s.out| == s.fanIn.next)
    && (s.fanIn.Spawning? || s.fanIn.Joining? || (s.fanIn.Finished? && !s.cancelled) ==> |s.out| >= |cfg.initial|)
    && (forall i :: 0 <= i < |s.fwds| ==>
          && ForwarderOk(s.fwds[i], s.remotes[i].items)
          && (!s.fwds[i].pc.Unspawned? ==> |s.out| >= |cfg.initial|)
          && (s.fwds[i].lost ==> s.cancelled)
          && (s.fwds[i].pc.Returning? ==> s.cancelled || s.remotes[i].ended))
    && (forall i :: 0 <= i < |s.fwds| ==> InStep(cfg, s, i))
  }

  /** What was delivered from member i is the relay of its settled items. */
  ghost predicate InStep(cfg: Config, s: State, i: nat)
    requires Shaped(cfg, s) && i < |s.fwds|
  {
    && 0 <= Settled(s.fwds[i]) <= |s.remotes[i].items|
    && Delivered(s.out, i) == RelayAll(cfg.names[i], s.remotes[i].items[..Settled(s.fwds[i])])
  }

  lemma StreamFanIn(cfg: Config, s: State, step: Step)
    requires Stream(cfg, s) && Enabled(cfg, s, step) && ActorOf(step).TheFanIn?
    ensures Stream(cfg, Next(cfg, s, step))
  {
    var t := Next(cfg, s, step);
    ControlStep(cfg, s, step);
    forall i | 0 <= i < |t.fwds| ensures InStep(cfg, t, i) {
      assert InStep(cfg, s, i);
      if step.SendInitial? {
        DeliveredSnoc(s.out, FromInitial(cfg.initial[s.fanIn.next]), i);
      }
    }
  }

  lemma StreamReceive(cfg: Config, s: State, i: nat)
    requires Stream(cfg, s) && Enabled(cfg, s, Receive(i))
    ensures Stream(cfg, Next(cfg, s, Receive(i)))
  {
    hide Phases, InStep;
    var t := Next(cfg, s, Receive(i));
    ControlStep(cfg, s, Receive(i));
    forall j | 0 <= j < |t.fwds| ensures InStep(cfg, t, j) {
      ReceiveInStep(cfg, s, i, j);
    }
  }

  lemma ReceiveInStep(cfg: Config, s: State, i: nat, j: nat)
    requires Stream(cfg, s) && Enabled(cfg, s, Receive(i)) && j < |s.fwds|
    ensures InStep(cfg, Next(cfg, s, Receive(i)), j)
  {
    hide Phases, Ordered, Delivered, RelayAll;
    assert InStep(cfg, s, j);
    if j == i && s.fwds[i].taken < |s.remotes[i].items| {
      RelaySnoc(cfg.names[i], s.remotes[i].items, s.fwds[i].taken);
    }
  }

  lemma StreamSend(cfg: Config, s: State, i: nat)
    requires Stream(cfg, s) && Enabled(cfg, s, Send(i))
    ensures Stream(cfg, Next(cfg, s, Send(i)))
    ensures var k := Settled(s.fwds[i]);
            && Settled(Next(cfg, s, Send(i)).fwds[i]) == k + 1 && 0 <= k < |s.remotes[i].items|
            && Relay(cfg.names[i], s.remotes[i].items[k]).Some?
            && Next(cfg, s, Send(i)).out == s.out + [FromRemote(i, Relay(cfg.names[i], s.remotes[i].items[k]).value)]
  {
    var t := Next(cfg, s, Send(i));
    ControlStep(cfg, s, Send(i));
    var item := s.fwds[i].pc.item;
    var x := FromRemote(i, Relay(cfg.names[i], item).value);
    forall j | 0 <= j < |t.fwds| ensures InStep(cfg, t, j) {
      assert InStep(cfg, s, j);
      DeliveredSnoc(s.out, x, j);
      if j == i {
        RelaySnoc(cfg.names[i], s.remotes[i].items, s.fwds[i].taken - 1);
      }
    }
  }

  lemma StreamGiveUp(cfg: Config, s: State, step: Step)
    requires Stream(cfg, s) && Enabled(cfg, s, step) && (step.ObserveDone? || step.CancelAndEnd?)
    ensures Stream(cfg, Next(cfg, s, step))
  {
    var t := Next(cfg, s, step);
    ControlStep(cfg, s, step);
    forall j | 0 <= j < |t.fwds| ensures InStep(cfg, t, j) {
      assert InStep(cfg, s, j);
    }
  }

  lemma StreamCloser(cfg: Config, s: State, step: Step)
    requires Stream(cfg, s) && Enabled(cfg, s, step) && ActorOf(step).TheCloser?
    ensures Stream(cfg, Next(cfg, s, step))
  {
    var t := Next(cfg, s, step);
    ControlStep(cfg, s, step);
    forall j | 0 <= j < |t.fwds| ensures InStep(cfg, t, j) {
      assert InStep(cfg, s, j);
    }
  }

  lemma StreamEnvironment(cfg: Config, s: State, step: Step)
    requires Stream(cfg, s) && Enabled(cfg, s, step) && ActorOf(step).TheEnvironment?
    ensures Stream(cfg, Next(cfg, s, step))
  {
    hide Phases, Ordered, RelayAll, Delivered;
    var t := Next(cfg, s, step);
    ControlStep(cfg, s, step);
    forall j | 0 <= j < |t.fwds| ensures InStep(cfg, t, j) && ForwarderOk(t.fwds[j], t.remotes[j].items) {
      assert InStep(cfg, s, j) && ForwarderOk(s.fwds[j], s.remotes[j].items);
      assert s.remotes[j].items <= t.remotes[j].items;
      var k := Settled(s.fwds[j]);
      assert t.remotes[j].items[..k] == s.remotes[j].items[..k];
    }
  }

  lemma StreamStep(cfg: Config, s: State, step: Step)
    requires Stream(cfg, s) && Enabled(cfg, s, step)
    ensures Stream(cfg, Next(cfg, s, step))
  {
    match ActorOf(step)
    case TheFanIn => StreamFanIn(cfg, s, step);
    case AForwarder =>
      if step.Receive? {
        StreamReceive(cfg, s, step.i);
      } else if step.Send? {
        StreamSend(cfg, s, step.i);
      } else {
        StreamGiveUp(cfg, s, step);
      }
    case TheCloser => StreamCloser(cfg, s, step);
    case TheEnvironment => StreamEnvironment(cfg, s, step);
  }

  lemma {:induction false} StreamRun(cfg: Config, s: State, steps: seq<Step>, s': State)
    requires Stream(cfg, s) && Leads(cfg, s, steps, s')
    ensures Stream(cfg, s')
    decreases |steps|
  {
    if steps != [] {
      StreamStep(cfg, s, steps[0]);
      StreamRun(cfg, Next(cfg, s, steps[0]), steps[1..], s');
    }
  }

  lemma StartStreams(cfg: Config, s: State)
    requires Starts(cfg, s)
    ensures Stream(cfg, s)
  {
  }

  /**
   Stream shape, in every state of every run: the initial events in order, then live events
   only, from each member a prefix of its bookmark-free stamped stream; at most one received
   event per member is undelivered, and it is given up only after cancellation.
   */
  lemma StreamShape(cfg: Config, s: State, steps: seq<Step>, s': State)
    requires Starts(cfg, s) && Leads(cfg, s, steps, s')
    ensures Shaped(cfg, s') && Ordered(cfg.initial, s'.out)
    ensures forall i :: 0 <= i < |cfg.names| ==>
              var k := Settled(s'.fwds[i]);
              && 0 <= k <= s'.fwds[i].taken <= k + 1 && s'.fwds[i].taken <= |s'.remotes[i].items|
              && Delivered(s'.out, i) == RelayAll(cfg.names[i], s'.remotes[i].items[..k])
              && (s'.fwds[i].lost ==> s'.cancelled)
    ensures forall j :: 0 <= j < |s'.out| && s'.out[j].event.InitialDone? ==> j == |cfg.initial| - 1
    ensures cfg.watchList && |s'.out| >= |cfg.initial| > 0 ==> s'.out[|cfg.initial| - 1].event.InitialDone?
  {
    StartStreams(cfg, s);
    StreamRun(cfg, s, steps, s');
    forall i | 0 <= i < |cfg.names| ensures InStep(cfg, s', i) && ForwarderOk(s'.fwds[i], s'.remotes[i].items) {
    }
  }

  // Replay.

  ghost predicate Streaming(cfg: Config, s: State) {
    && Shaped(cfg, s) && SetUp(cfg, Logs(s.remotes))
    && forall i :: 0 <= i < |s.remotes| ==>
         Streams(s.remotes[i], cfg.sel, cfg.rv[i])
  }

  lemma ViewsGrow(logs: seq<seq<Entry>>, longer: seq<seq<Entry>>, rv: seq<nat>, sel: Selection)
    requires |rv| == |logs| == |longer| && forall i :: 0 <= i < |logs| ==> rv[i] <= |logs[i]| && logs[i] <= longer[i]
    ensures ViewsAt(logs, rv, sel) == ViewsAt(longer, rv, sel)
  {
    forall i | 0 <= i < |logs| ensures At(logs[i], rv[i]) == At(longer[i], rv[i]) {
      AtFacts(logs[i], longer[i], rv[i]);
    }
  }

  ghost predicate Streams(r: Remote, sel: Selection, rv: nat) {
    StreamOf(r.log, sel, rv, r.items, r.produced)
  }

  lemma StreamingAppend(r: Remote, sel: Selection, rv: nat, e: Entry)
    requires Streams(r, sel, rv)
    ensures Streams(Moved(r, sel, Append(e)), sel, rv)
  {
    StreamGrows(r.log, r.log + [e], sel, rv, r.items, r.produced);
  }

  lemma StreamingRead(r: Remote, sel: Selection, rv: nat)
    requires Streams(r, sel, rv) && r.produced < |r.log|
    ensures Streams(Moved(r, sel, Read), sel, rv)
  {
    StreamAdvances(r.log, sel, rv, r.items, r.produced);
  }

  lemma StreamingMove(r: Remote, sel: Selection, rv: nat, m: Move, stopped: bool)
    requires CanMove(r, stopped, m) && Streams(r, sel, rv)
    ensures Streams(Moved(r, sel, m), sel, rv)
  {
    match m
    case Append(e) => StreamingAppend(r, sel, rv, e);
    case Read => StreamingRead(r, sel, rv);
    case Bookmark => StreamIdles(r.log, sel, rv, r.items, r.produced, Progress);
    case Break => StreamIdles(r.log, sel, rv, r.items, r.produced, Failure);
    case End =>
  }

  lemma StreamingStep(cfg: Config, s: State, step: Step)
    requires Control(cfg, s) && Streaming(cfg, s) && Enabled(cfg, s, step)
    ensures Streaming(cfg, Next(cfg, s, step))
  {
    var t := Next(cfg, s, step);
    ControlStep(cfg, s, step);
    if step.MemberMoves? {
      StreamingMove(s.remotes[step.i], cfg.sel, cfg.rv[step.i], step.move, s.stopped[step.i]);
      ViewsGrow(Logs(s.remotes), Logs(t.remotes), cfg.rv, cfg.sel);
    } else {
      assert t.remotes == s.remotes;
    }
  }

  /** The view of a member after its first k items. */
  function FoldAt(r: Remote, k: nat, sel: Selection, rv: nat): Contents
    requires rv <= |r.log| && k <= |r.items|
  {
    Fold(View(At(r.log, rv), sel), r.items[..k])
  }

  /** The view of each member after its settled items. */
  function Folds(cfg: Config, s: State): (v: seq<Contents>)
    requires Stream(cfg, s) && Streaming(cfg, s)
    ensures |v| == |cfg.names|
  {
    assert forall i :: 0 <= i < |s.fwds| ==> InStep(cfg, s, i);
    seq(|cfg.names|, i requires 0 <= i < |cfg.names| =>
      assert InStep(cfg, s, i);
      FoldAt(s.remotes[i], Settled(s.fwds[i]), cfg.sel, cfg.rv[i]))
  }

  /** Once the initial events are out, replaying the output mirrors the members as far as their settled items go. */
  ghost predicate Mirrored(cfg: Config, s: State)
    requires Stream(cfg, s) && Streaming(cfg, s)
  {
    cfg.watchList && |s.out| >= |cfg.initial| ==> Mirrors(cfg.names, Folds(cfg, s), Replay(Events(s.out)))
  }

  lemma ReplaySnoc(out: seq<Sent>, x: Sent)
    ensures Replay(Events(out + [x])) == Replayed(Replay(Events(out)), x.event)
  {
    var events := Events(out + [x]);
    assert events[..|events| - 1] == Events(out);
  }

  lemma MirrorsChange(names: seq<string>, views: seq<Contents>, m: Mirror, i: nat, ch: Change)
    requires Distinct(names) && Mirrors(names, views, m) && i < |names|
    ensures Mirrors(names, views[i := ApplyChange(views[i], ch)],
                    Replayed(m, Observe(ch.kind, Stamped(ch.obj, names[i]))))
  {
    var views' := views[i := ApplyChange(views[i], ch)];
    var m' := Replayed(m, Observe(ch.kind, Stamped(ch.obj, names[i])));
    var key := (names[i], NameOf(ch.obj));
    assert MirrorKey(Stamped(ch.obj, names[i])) == key;
    forall c, n | (c, n) in m' ensures exists j :: 0 <= j < |names| && names[j] == c && n in views'[j] {
      if (c, n) == key {
        assert n in views'[i];
      } else {
        var j :| 0 <= j < |names| && names[j] == c && n in views[j];
        assert n in views'[j];
      }
    }
    forall j, n | 0 <= j < |names| && n in views'[j]
      ensures (names[j], n) in m' && m'[(names[j], n)] == Stamped(views'[j][n], names[j])
    {
      if j != i {
        assert names[j] != names[i];
      }
    }
  }

  /** The view that member i is at after one more item. */
  function Advanced(v: Contents, item: Item): Contents {
    if item.Report? then ApplyChange(v, item.change) else v
  }

  lemma FoldSnoc(r: Remote, k: nat, sel: Selection, rv: nat)
    requires rv <= |r.log| && k < |r.items|
    ensures FoldAt(r, k + 1, sel, rv) == Advanced(FoldAt(r, k, sel, rv), r.items[k])
  {
    assert r.items[..k + 1][..k] == r.items[..k];
  }

  lemma FoldsSend(cfg: Config, s: State, i: nat)
    requires Stream(cfg, s) && Streaming(cfg, s) && Enabled(cfg, s, Send(i))
    requires Stream(cfg, Next(cfg, s, Send(i))) && Streaming(cfg, Next(cfg, s, Send(i)))
    ensures 0 <= Settled(s.fwds[i]) < |s.remotes[i].items|
    ensures Folds(cfg, Next(cfg, s, Send(i))) ==
            Folds(cfg, s)[i := Advanced(Folds(cfg, s)[i], s.remotes[i].items[Settled(s.fwds[i])])]
  {
    hide Phases, Ordered, SetUp;
    var t := Next(cfg, s, Send(i));
    assert InStep(cfg, s, i) && InStep(cfg, t, i);
    FoldSnoc(s.remotes[i], Settled(s.fwds[i]), cfg.sel, cfg.rv[i]);
    forall j | 0 <= j < |cfg.names| && j != i ensures Folds(cfg, t)[j] == Folds(cfg, s)[j] {
      assert t.fwds[j] == s.fwds[j];
    }
  }

  lemma MirrorsItem(names: seq<string>, views: seq<Contents>, m: Mirror, i: nat, item: Item)
    requires Distinct(names) && Mirrors(names, views, m) && i < |names| && Relay(names[i], item).Some?
    ensures Mirrors(names, views[i := Advanced(views[i], item)], Replayed(m, Relay(names[i], item).value))
  {
    if item.Report? {
      MirrorsChange(names, views, m, i, item.change);
    } else {
      assert views[i := views[i]] == views;
    }
  }

  lemma MirroredSend(cfg: Config, s: State, i: nat)
    requires Stream(cfg, s) && Streaming(cfg, s) && Mirrored(cfg, s) && Enabled(cfg, s, Send(i))
    requires Stream(cfg, Next(cfg, s, Send(i))) && Streaming(cfg, Next(cfg, s, Send(i)))
    ensures Mirrored(cfg, Next(cfg, s, Send(i)))
  {
    StreamSend(cfg, s, i);
    FoldsSend(cfg, s, i);
    if cfg.watchList {
      var item := s.remotes[i].items[Settled(s.fwds[i])];
      ReplaySnoc(s.out, FromRemote(i, Relay(cfg.names[i], item).value));
      MirrorsItem(cfg.names, Folds(cfg, s), Replay(Events(s.out)), i, item);
    }
  }

  lemma MirroredInitial(cfg: Config, s: State)
    requires Stream(cfg, s) && Streaming(cfg, s) && Enabled(cfg, s, SendInitial)
    requires Stream(cfg, Next(cfg, s, SendInitial)) && Streaming(cfg, Next(cfg, s, SendInitial))
    ensures Mirrored(cfg, Next(cfg, s, SendInitial))
  {
    var t := Next(cfg, s, SendInitial);
    if cfg.watchList && |t.out| >= |cfg.initial| {
      assert Events(t.out) == cfg.initial;
      forall i | 0 <= i < |cfg.names| ensures Folds(cfg, t)[i] == ViewsAt(Logs(t.remotes), cfg.rv, cfg.sel)[i] {
        assert ForwarderOk(t.fwds[i], t.remotes[i].items);
      }
      assert Folds(cfg, t) == ViewsAt(Logs(t.remotes), cfg.rv, cfg.sel);
    }
  }

  lemma MirroredElse(cfg: Config, s: State, step: Step)
    requires Stream(cfg, s) && Streaming(cfg, s) && Mirrored(cfg, s) && Enabled(cfg, s, step)
    requires Stream(cfg, Next(cfg, s, step)) && Streaming(cfg, Next(cfg, s, step))
    requires !step.Send? && !step.SendInitial?
    ensures Mirrored(cfg, Next(cfg, s, step))
  {
    var t := Next(cfg, s, step);
    forall i | 0 <= i < |cfg.names| ensures Folds(cfg, t)[i] == Folds(cfg, s)[i] {
      FoldKept(cfg, s, step, i);
    }
    assert Folds(cfg, t) == Folds(cfg, s);
  }

  lemma FoldMoved(r: Remote, k: nat, sel: Selection, rv: nat, m: Move)
    requires rv <= |r.log| && k <= |r.items|
    ensures var t := Moved(r, sel, m); rv <= |t.log| && k <= |t.items| && FoldAt(t, k, sel, rv) == FoldAt(r, k, sel, rv)
  {
    var t := Moved(r, sel, m);
    assert r.log <= t.log && t.items[..k] == r.items[..k];
    AtFacts(r.log, t.log, rv);
  }

  lemma FoldReceived(f: Forwarder, r: Remote, sel: Selection, rv: nat)
    requires rv <= |r.log| && ForwarderOk(f, r.items) && f.pc.Selecting?
    ensures var k := Settled(Received(f, r.items));
            0 <= k <= |r.items| && FoldAt(r, k, sel, rv) == FoldAt(r, f.taken, sel, rv)
  {
    if f.taken < |r.items| {
      assert r.items[..f.taken + 1][..f.taken] == r.items[..f.taken];
    }
  }

  /** Only a move of member i and the steps of its forwarder touch what the fold of member i depends on. */
  lemma FoldUntouched(cfg: Config, s: State, step: Step, i: nat)
    requires Shaped(cfg, s) && Enabled(cfg, s, step) && i < |cfg.names| && ForwarderOk(s.fwds[i], s.remotes[i].items)
    requires !step.Send? && !(step.MemberMoves? && step.i == i) && !(step.Receive? && step.i == i)
    ensures var t := Next(cfg, s, step);
            && |t.remotes| == |t.fwds| == |cfg.names|
            && t.remotes[i] == s.remotes[i] && Settled(t.fwds[i]) == Settled(s.fwds[i])
  {
  }

  lemma FoldKept(cfg: Config, s: State, step: Step, i: nat)
    requires Stream(cfg, s) && Streaming(cfg, s) && Enabled(cfg, s, step) && i < |cfg.names|
    requires !step.Send? && !step.SendInitial?
    ensures var t, k := Next(cfg, s, step), Settled(s.fwds[i]);
            && 0 <= k <= |s.remotes[i].items| && |t.remotes| == |t.fwds| == |cfg.names|
            && cfg.rv[i] <= |t.remotes[i].log|
            && 0 <= Settled(t.fwds[i]) <= |t.remotes[i].items|
            && FoldAt(t.remotes[i], Settled(t.fwds[i]), cfg.sel, cfg.rv[i]) ==
               FoldAt(s.remotes[i], k, cfg.sel, cfg.rv[i])
  {
    assert InStep(cfg, s, i) && ForwarderOk(s.fwds[i], s.remotes[i].items);
    var k := Settled(s.fwds[i]);
    if step.MemberMoves? && step.i == i {
      FoldMoved(s.remotes[i], k, cfg.sel, cfg.rv[i], step.move);
    } else if step.Receive? && step.i == i {
      FoldReceived(s.fwds[i], s.remotes[i], cfg.sel, cfg.rv[i]);
    } else {
      FoldUntouched(cfg, s, step, i);
    }
  }

  lemma {:induction false} MirroredRun(cfg: Config, s: State, steps: seq<Step>, s': State)
    requires Stream(cfg, s) && Streaming(cfg, s) && Mirrored(cfg, s) && Leads(cfg, s, steps, s')
    ensures Stream(cfg, s') && Streaming(cfg, s') && Mirrored(cfg, s')
    decreases |steps|
  {
    if steps != [] {
      var step := steps[0];
      StreamStep(cfg, s, step);
      StreamingStep(cfg, s, step);
      if step.Send? {
        MirroredSend(cfg, s, step.i);
      } else if step.SendInitial? {
        MirroredInitial(cfg, s);
      } else {
        MirroredElse(cfg, s, step);
      }
      MirroredRun(cfg, Next(cfg, s, step), steps[1..], s');
    }
  }

  /** The log position that the events delivered from member i account for. */
  function Position(cfg: Config, s: State, i: nat): nat
    requires Shaped(cfg, s) && i < |cfg.names| && 0 <= Settled(s.fwds[i]) <= |s.remotes[i].items|
  {
    Covered(cfg.rv[i], s.remotes[i].items[..Settled(s.fwds[i])])
  }

  /**
   Watch-list replay: after the initial-events bookmark, in every state of every run, the
   client's replay of what was delivered is exactly the members' stamped contents, each at
   the log position its delivered events account for.  Nothing between list and watch is
   missed or seen twice, whatever the interleaving.
   */
  lemma WatchListReplay(cfg: Config, s: State, steps: seq<Step>, s': State)
    requires Starts(cfg, s) && Leads(cfg, s, steps, s')
    requires exists j :: 0 <= j < |s'.out| && s'.out[j].event.InitialDone?
    ensures Shaped(cfg, s')
    ensures forall i :: 0 <= i < |cfg.names| ==>
              && 0 <= Settled(s'.fwds[i]) <= |s'.remotes[i].items|
              && Delivered(s'.out, i) == RelayAll(cfg.names[i], s'.remotes[i].items[..Settled(s'.fwds[i])])
              && cfg.rv[i] <= Position(cfg, s', i) <= |s'.remotes[i].log|
    ensures Mirrors(cfg.names,
                    ViewsAt(Logs(s'.remotes),
                            seq(|cfg.names|, i requires 0 <= i < |cfg.names| => Position(cfg, s', i)), cfg.sel),
                    Replay(Events(s'.out)))
  {
    StartStreams(cfg, s);
    assert Streaming(cfg, s);
    MirroredStart(cfg, s);
    MirroredRun(cfg, s, steps, s');
    forall i | 0 <= i < |cfg.names|
      ensures 0 <= Settled(s'.fwds[i]) <= |s'.remotes[i].items|
      ensures Delivered(s'.out, i) == RelayAll(cfg.names[i], s'.remotes[i].items[..Settled(s'.fwds[i])])
      ensures cfg.rv[i] <= Position(cfg, s', i) <= |s'.remotes[i].log|
      ensures Folds(cfg, s')[i] == View(At(s'.remotes[i].log, Position(cfg, s', i)), cfg.sel)
    {
      PositionTracks(cfg, s', i);
    }
    var positions := seq(|cfg.names|, i requires 0 <= i < |cfg.names| => Position(cfg, s', i));
    assert Folds(cfg, s') == ViewsAt(Logs(s'.remotes), positions, cfg.sel);
    var j :| 0 <= j < |s'.out| && s'.out[j].event.InitialDone?;
    assert cfg.watchList && |s'.out| >= |cfg.initial|;
  }

  lemma MirroredStart(cfg: Config, s: State)
    requires Starts(cfg, s) && Stream(cfg, s) && Streaming(cfg, s)
    ensures Mirrored(cfg, s)
  {
  }

  lemma PositionTracks(cfg: Config, s: State, i: nat)
    requires Stream(cfg, s) && Streaming(cfg, s) && i < |cfg.names|
    ensures InStep(cfg, s, i)
    ensures cfg.rv[i] <= Position(cfg, s, i) <= |s.remotes[i].log|
    ensures Folds(cfg, s)[i] == View(At(s.remotes[i].log, Position(cfg, s, i)), cfg.sel)
  {
    assert InStep(cfg, s, i);
    var r, k := s.remotes[i], Settled(s.fwds[i]);
    StreamPrefix(r.log, cfg.sel, cfg.rv[i], r.items, r.produced, k);
    var q :| StreamOf(r.log, cfg.sel, cfg.rv[i], r.items[..k], q);
    StreamTracksView(r.log, cfg.sel, cfg.rv[i], r.items[..k], q);
  }
}
