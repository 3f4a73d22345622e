/**
 What the aggregate watch owes its client: everything the members' watches deliver arrives, it
 is what the members' logs say after the listed positions, and a member that ends its watch
 ends the whole (pkg/apiserver/storage/watcher.go, lines 103-119 and 155-187).
 */
module Delivery {
  import opened Order
  import opened Metadata
  import opened WatchLogs
  import opened Watcher
  import opened WatchStream

  /** Nobody has cancelled, and every member's watch goes on. */
  predicate Unbroken(s: State) {
    !s.cancelled && forall i :: 0 <= i < |s.remotes| ==> !s.remotes[i].ended
  }

  /** The client has the initial events and all that the members' watches have delivered. */
  ghost predicate AllDelivered(cfg: Config, s: State)
    requires Shaped(cfg, s)
  {
    && |s.out| >= |cfg.initial| && Ordered(cfg.initial, s.out)
    && forall i :: 0 <= i < |cfg.names| ==> Delivered(s.out, i) == RelayAll(cfg.names[i], s.remotes[i].items)
  }

  /** A step of the fan-in or of a forwarder. */
  predicate Carries(step: Step) {
    ActorOf(step).TheFanIn? || ActorOf(step).AForwarder?
  }

  /** Every forwarder waits for its remote, and the fan-in for the forwarders. */
  predicate Idle(s: State) {
    && (s.fanIn.Joining? || s.fanIn.Finished?)
    && |s.remotes| == |s.fwds|
    && forall i :: 0 <= i < |s.fwds| ==> s.fwds[i].pc.Selecting? && s.fwds[i].taken == |s.remotes[i].items|
  }

  lemma IdleDelivered(cfg: Config, s: State)
    requires Stream(cfg, s) && Unbroken(s) && Idle(s)
    ensures AllDelivered(cfg, s)
  {
    forall i | 0 <= i < |cfg.names| ensures Delivered(s.out, i) == RelayAll(cfg.names[i], s.remotes[i].items) {
      assert InStep(cfg, s, i) && ForwarderOk(s.fwds[i], s.remotes[i].items);
      assert s.remotes[i].items[..Settled(s.fwds[i])] == s.remotes[i].items;
    }
  }

  /** While the fan-in is not waiting for its forwarders it has a step to take. */
  lemma FanInProgress(cfg: Config, s: State) returns (step: Step)
    requires Stream(cfg, s) && (s.fanIn.Initial? || s.fanIn.Spawning?)
    ensures Enabled(cfg, s, step) && ActorOf(step).TheFanIn?
  {
    if s.fanIn.Initial? {
      return if s.fanIn.next < |cfg.initial| then SendInitial else BeginSpawning;
    }
    if i :| 0 <= i < |s.fwds| && s.fwds[i].pc.Unspawned? {
      return Spawn(i);
    }
    return FinishSpawning;
  }

  lemma DeliveryProgress(cfg: Config, s: State) returns (step: Step)
    requires Stream(cfg, s) && Unbroken(s) && !Idle(s)
    ensures Enabled(cfg, s, step) && Carries(step)
  {
    if s.fanIn.Initial? || s.fanIn.Spawning? {
      step := FanInProgress(cfg, s);
    } else {
      var i :| 0 <= i < |s.fwds| && !(s.fwds[i].pc.Selecting? && s.fwds[i].taken == |s.remotes[i].items|);
      assert ForwarderOk(s.fwds[i], s.remotes[i].items);
      step := if s.fwds[i].pc.Selecting? then Receive(i) else Send(i);
    }
  }

  lemma CarryKeeps(cfg: Config, s: State, step: Step)
    requires Stream(cfg, s) && Unbroken(s) && Enabled(cfg, s, step) && Carries(step)
    ensures Stream(cfg, Next(cfg, s, step)) && Unbroken(Next(cfg, s, step))
    ensures Next(cfg, s, step).remotes == s.remotes && Work(cfg, Next(cfg, s, step)) < Work(cfg, s)
  {
    StreamStep(cfg, s, step);
    WorkDecreases(cfg, s, step);
  }

  lemma {:induction false} DeliverRest(cfg: Config, s: State) returns (more: seq<Step>, t: State)
    requires Stream(cfg, s) && Unbroken(s)
    ensures Leads(cfg, s, more, t) && (forall k :: 0 <= k < |more| ==> Carries(more[k])) && |more| <= Work(cfg, s)
    ensures Stream(cfg, t) && Unbroken(t) && t.remotes == s.remotes && AllDelivered(cfg, t)
    decreases Work(cfg, s)
  {
    hide Phases, Ordered, ForwarderOk, Unbroken, AllDelivered, Carries;
    more, t := [], s;
    if Idle(s) {
      IdleDelivered(cfg, s);
    } else {
      var step := DeliveryProgress(cfg, s);
      CarryKeeps(cfg, s, step);
      var rest;
      rest, t := DeliverRest(cfg, Next(cfg, s, step));
      more := [step] + rest;
      assert more[1..] == rest;
    }
  }

  /**
   Delivery: from every state of every run in which nobody has cancelled and no member has ended
   its watch, steps of the fan-in and the forwarders alone, no more than there is work, bring the
   client all initial events and all that the members' watches have delivered.
   */
  lemma Delivers(cfg: Config, s: State, steps: seq<Step>, s': State) returns (more: seq<Step>, t: State)
    requires Starts(cfg, s) && Leads(cfg, s, steps, s') && Unbroken(s')
    ensures Leads(cfg, s', more, t) && (forall k :: 0 <= k < |more| ==> Carries(more[k])) && |more| <= Work(cfg, s')
    ensures Shaped(cfg, t) && t.remotes == s'.remotes && AllDelivered(cfg, t)
  {
    StartStreams(cfg, s);
    StreamRun(cfg, s, steps, s');
    more, t := DeliverRest(cfg, s');
  }

  /** And when the fan-in and the forwarders can do no more, whoever moved in between, it is all delivered. */
  lemma StuckMeansDelivered(cfg: Config, s: State, steps: seq<Step>, s': State)
    requires Starts(cfg, s) && Leads(cfg, s, steps, s') && Shaped(cfg, s') && Unbroken(s')
    requires forall step :: Enabled(cfg, s', step) ==> !Carries(step)
    ensures AllDelivered(cfg, s')
  {
    StartStreams(cfg, s);
    StreamRun(cfg, s, steps, s');
    if Idle(s') {
      IdleDelivered(cfg, s');
    } else {
      var step := DeliveryProgress(cfg, s');
    }
  }

  // A member that ends its watch.

  /** What the goroutines do about a member's watch that has ended. */
  lemma EndedProgress(cfg: Config, s: State, i: nat) returns (step: Step)
    requires Stream(cfg, s) && !s.cancelled && i < |cfg.names| && s.remotes[i].ended
    ensures Enabled(cfg, s, step) && Carries(step)
  {
    if s.fanIn.Initial? || s.fanIn.Spawning? {
      step := FanInProgress(cfg, s);
    } else {
      assert !s.fanIn.Finished?;
      step := match s.fwds[i].pc
              case Holding(_) => Send(i)
              case Returning => CancelAndEnd(i)
              case _ => Receive(i);
    }
  }

  lemma EndedStays(cfg: Config, s: State, step: Step, i: nat)
    requires Stream(cfg, s) && Enabled(cfg, s, step) && Carries(step)
    ensures Stream(cfg, Next(cfg, s, step)) && Next(cfg, s, step).remotes == s.remotes
    ensures Work(cfg, Next(cfg, s, step)) < Work(cfg, s)
  {
    StreamStep(cfg, s, step);
    WorkDecreases(cfg, s, step);
  }

  lemma {:induction false} EndFrom(cfg: Config, s: State, i: nat) returns (more: seq<Step>, t: State)
    requires Stream(cfg, s) && i < |cfg.names| && (s.cancelled || s.remotes[i].ended)
    ensures Leads(cfg, s, more, t) && t.closed && |more| <= Work(cfg, s)
    ensures forall k :: 0 <= k < |more| ==> !ActorOf(more[k]).TheEnvironment?
    decreases Work(cfg, s)
  {
    if s.cancelled {
      more, t := ShutdownCloses(cfg, s);
    } else {
      hide Stream;
      var step := EndedProgress(cfg, s, i);
      EndedStays(cfg, s, step, i);
      var rest;
      rest, t := EndFrom(cfg, Next(cfg, s, step), i);
      more := [step] + rest;
      assert more[1..] == rest;
    }
  }

  /**
   When one member ends its watch the whole ends: from every such state of every run the
   goroutines, with a client that receives, close the channel in no more steps than there is work.
   */
  lemma EndedMemberEndsWatch(cfg: Config, s: State, steps: seq<Step>, s': State, i: nat)
    returns (more: seq<Step>, t: State)
    requires Starts(cfg, s) && Leads(cfg, s, steps, s') && Shaped(cfg, s') && i < |cfg.names| && s'.remotes[i].ended
    ensures Leads(cfg, s', more, t) && t.closed && |more| <= Work(cfg, s')
    ensures forall k :: 0 <= k < |more| ==> !ActorOf(more[k]).TheEnvironment?
  {
    StartStreams(cfg, s);
    StreamRun(cfg, s, steps, s');
    more, t := EndFrom(cfg, s', i);
  }

  // What is delivered, against the members' logs.

  function EntryName(e: Entry): Name {
    match e
    case Put(o) => NameOf(o)
    case Remove(n) => n
  }

  /** How the view changed at one name: the object came in, stayed in, or went out. */
  function Changed(before: Contents, after: Contents, n: Name): Option<Change> {
    if n in after then Some(Change(if n in before then Modified else Added, after[n]))
    else if n in before then Some(Change(Deleted, before[n]))
    else None
  }

  /** The changes of the selected contents, entry by entry, from one log position to another. */
  function Changes(log: seq<Entry>, sel: Selection, from: nat, till: nat): seq<Change>
    requires from <= till <= |log|
  {
    if from == till then []
    else
      var change := Changed(View(At(log, till - 1), sel), View(At(log, till), sel), EntryName(log[till - 1]));
      Changes(log, sel, from, till - 1) + if change.Some? then [change.value] else []
  }

  function Reported(items: seq<Item>): seq<Change> {
    if items == [] then []
    else
      var last := items[|items| - 1];
      Reported(items[..|items| - 1]) + if last.Report? then [last.change] else []
  }

  lemma ObservedIsChange(m: Contents, e: Entry, sel: Selection)
    requires WellNamed(m)
    ensures Observed(m, e, sel) == Changed(View(m, sel), View(Apply(m, e), sel), EntryName(e))
  {
  }

  lemma {:induction false} SilentChanges(log: seq<Entry>, sel: Selection, rv: nat, from: nat, till: nat)
    requires Silent(log, sel, from, till) && rv <= from
    ensures Changes(log, sel, rv, till) == Changes(log, sel, rv, from)
    decreases till
  {
    if from < till {
      SilentChanges(log, sel, rv, from, till - 1);
      AtFacts(log, log, till - 1);
      ObservedIsChange(At(log, till - 1), log[till - 1], sel);
    }
  }

  lemma {:induction false} StreamReports(log: seq<Entry>, sel: Selection, rv: nat, items: seq<Item>, p: nat)
    requires StreamOf(log, sel, rv, items, p)
    ensures rv <= Covered(rv, items) <= p
    ensures Reported(items) == Changes(log, sel, rv, p) == Changes(log, sel, rv, Covered(rv, items))
    decreases |items|
  {
    if items == [] {
      SilentChanges(log, sel, rv, rv, p);
    } else {
      var init, last := items[..|items| - 1], items[|items| - 1];
      if last.Report? {
        StreamReports(log, sel, rv, init, last.upto - 1);
        AtFacts(log, log, last.upto - 1);
        ObservedIsChange(At(log, last.upto - 1), log[last.upto - 1], sel);
        SilentChanges(log, sel, rv, last.upto, p);
      } else {
        StreamReports(log, sel, rv, init, p);
      }
    }
  }

  /** The object events among the delivered ones. */
  function Observations(events: seq<Event>): seq<Event> {
    if events == [] then []
    else
      var last := events[|events| - 1];
      Observations(events[..|events| - 1]) + if last.Observe? then [last] else []
  }

  /** The changes as the client should see them: with their kind, and marked with the cluster. */
  function Marked(c: string, changes: seq<Change>): seq<Event> {
    seq(|changes|, j requires 0 <= j < |changes| => Observe(changes[j].kind, Stamped(changes[j].obj, c)))
  }

  lemma {:induction false} RelayObserves(c: string, items: seq<Item>)
    ensures Observations(RelayAll(c, items)) == Marked(c, Reported(items))
  {
    if items != [] {
      var init, last := items[..|items| - 1], items[|items| - 1];
      RelayObserves(c, init);
      var events := RelayAll(c, items);
      match last
      case Report(ch, _) =>
        assert events[..|events| - 1] == RelayAll(c, init);
        assert Reported(items) == Reported(init) + [ch];
        assert Marked(c, Reported(items)) == Marked(c, Reported(init)) + [Relay(c, last).value];
      case Progress => assert events == RelayAll(c, init) && Reported(items) == Reported(init);
      case Failure =>
        assert events[..|events| - 1] == RelayAll(c, init);
        assert Reported(items) == Reported(init);
    }
  }

  lemma StreamsRun(cfg: Config, s: State, steps: seq<Step>, s': State)
    requires Starts(cfg, s) && Leads(cfg, s, steps, s')
    ensures Stream(cfg, s') && Streaming(cfg, s')
  {
    StartStreams(cfg, s);
    MirroredStart(cfg, s);
    MirroredRun(cfg, s, steps, s');
  }

  /**
   In every state of every run, with or without watch-list: the object events delivered from a
   member are, in order, the changes of its selected contents that its log records after the
   listed position, up to the position reached, marked with the cluster.
   */
  lemma WatchFollowsLog(cfg: Config, s: State, steps: seq<Step>, s': State, i: nat)
    requires Starts(cfg, s) && Leads(cfg, s, steps, s') && i < |cfg.names|
    ensures Shaped(cfg, s') && 0 <= Settled(s'.fwds[i]) <= |s'.remotes[i].items|
    ensures cfg.rv[i] <= Position(cfg, s', i) <= |s'.remotes[i].log|
    ensures Observations(Delivered(s'.out, i)) ==
            Marked(cfg.names[i], Changes(s'.remotes[i].log, cfg.sel, cfg.rv[i], Position(cfg, s', i)))
  {
    hide Starts, Leads, At, Observed, View;
    StreamsRun(cfg, s, steps, s');
    PositionTracks(cfg, s', i);
    var r, k := s'.remotes[i], Settled(s'.fwds[i]);
    StreamPrefix(r.log, cfg.sel, cfg.rv[i], r.items, r.produced, k);
    var q :| StreamOf(r.log, cfg.sel, cfg.rv[i], r.items[..k], q);
    StreamReports(r.log, cfg.sel, cfg.rv[i], r.items[..k], q);
    RelayObserves(cfg.names[i], r.items[..k]);
  }

  /** Once all is delivered those are the changes as far as the member's watch has read its log. */
  lemma DeliveredFollowsLog(cfg: Config, s: State, steps: seq<Step>, s': State, i: nat)
    requires Starts(cfg, s) && Leads(cfg, s, steps, s') && Shaped(cfg, s') && i < |cfg.names|
    requires AllDelivered(cfg, s')
    ensures cfg.rv[i] <= s'.remotes[i].produced <= |s'.remotes[i].log|
    ensures Observations(Delivered(s'.out, i)) ==
            Marked(cfg.names[i], Changes(s'.remotes[i].log, cfg.sel, cfg.rv[i], s'.remotes[i].produced))
  {
    hide Starts, Leads;
    StreamsRun(cfg, s, steps, s');
    ReadIsDelivered(cfg, s', i);
  }

  lemma ReadIsDelivered(cfg: Config, s: State, i: nat)
    requires Stream(cfg, s) && Streaming(cfg, s) && AllDelivered(cfg, s) && i < |cfg.names|
    ensures cfg.rv[i] <= s.remotes[i].produced <= |s.remotes[i].log|
    ensures Observations(Delivered(s.out, i)) ==
            Marked(cfg.names[i], Changes(s.remotes[i].log, cfg.sel, cfg.rv[i], s.remotes[i].produced))
  {
    hide At, Observed, View;
    var r := s.remotes[i];
    assert Streams(r, cfg.sel, cfg.rv[i]);
    StreamReports(r.log, cfg.sel, cfg.rv[i], r.items, r.produced);
    RelayObserves(cfg.names[i], r.items);
  }

  // Catching up with the members.

  predicate Reads(step: Step) {
    step.MemberMoves? && step.move.Read?
  }

  lemma {:induction false} LeadsOn(cfg: Config, s: State, a: seq<Step>, t: State, b: seq<Step>, u: State)
    requires Leads(cfg, s, a, t) && Leads(cfg, t, b, u)
    ensures Leads(cfg, s, a + b, u)
    decreases |a|
  {
    if a == [] {
      assert a + b == b;
    } else {
      LeadsOn(cfg, Next(cfg, s, a[0]), a[1..], t, b, u);
      assert (a + b)[1..] == a[1..] + b;
    }
  }

  ghost predicate Sound(cfg: Config, s: State) {
    Stream(cfg, s) && Streaming(cfg, s) && Unbroken(s)
  }

  /** The member's watch can read one more entry. */
  lemma ReadStep(cfg: Config, s: State, i: nat)
    requires Sound(cfg, s) && i < |cfg.names| && s.remotes[i].produced < |s.remotes[i].log|
    ensures var step := MemberMoves(i, Read);
            && Shaped(cfg, s) && Enabled(cfg, s, step)
            && var t := Next(cfg, s, step);
            && Sound(cfg, t) && |t.remotes| == |s.remotes| && Logs(t.remotes) == Logs(s.remotes)
            && t.remotes[i].produced == s.remotes[i].produced + 1
            && forall j :: 0 <= j < |cfg.names| && j != i ==> t.remotes[j] == s.remotes[j]
  {
    hide ForwarderOk, InStep, Ordered;
    var step := MemberMoves(i, Read);
    assert Enabled(cfg, s, step);
    StreamStep(cfg, s, step);
    StreamingStep(cfg, s, step);
  }

  lemma {:induction false} ReadOut(cfg: Config, s: State, i: nat) returns (more: seq<Step>, t: State)
    requires Sound(cfg, s) && i < |cfg.names| == |s.remotes|
    requires s.remotes[i].produced <= |s.remotes[i].log|
    ensures Leads(cfg, s, more, t) && (forall k :: 0 <= k < |more| ==> Reads(more[k]))
    ensures Sound(cfg, t) && |t.remotes| == |s.remotes| && Logs(t.remotes) == Logs(s.remotes)
    ensures t.remotes[i].produced == |t.remotes[i].log|
    ensures forall j :: 0 <= j < |cfg.names| && j != i ==> t.remotes[j] == s.remotes[j]
    decreases |s.remotes[i].log| - s.remotes[i].produced
  {
    hide Stream, Streaming, Unbroken;
    more, t := [], s;
    SoundShaped(cfg, s);
    if s.remotes[i].produced < |s.remotes[i].log| {
      ReadStep(cfg, s, i);
      var step := MemberMoves(i, Read);
      var next, rest := Next(cfg, s, step), [];
      assert Logs(next.remotes)[i] == Logs(s.remotes)[i];
      rest, t := ReadOut(cfg, next, i);
      more := [step] + rest;
      assert more[1..] == rest;
    }
  }

  lemma SoundShaped(cfg: Config, s: State)
    requires Sound(cfg, s)
    ensures Shaped(cfg, s) && forall i :: 0 <= i < |s.remotes| ==> s.remotes[i].produced <= |s.remotes[i].log|
  {
    forall i | 0 <= i < |s.remotes| ensures s.remotes[i].produced <= |s.remotes[i].log| {
      assert Streams(s.remotes[i], cfg.sel, cfg.rv[i]);
    }
  }

  /** The members' watches read their logs out, one after the other. */
  lemma {:induction false} ReadAll(cfg: Config, s: State, n: nat) returns (more: seq<Step>, t: State)
    requires Sound(cfg, s) && n <= |cfg.names|
    ensures Leads(cfg, s, more, t) && (forall k :: 0 <= k < |more| ==> Reads(more[k]))
    ensures Sound(cfg, t) && |t.remotes| == |s.remotes| == |cfg.names| && Logs(t.remotes) == Logs(s.remotes)
    ensures forall i :: 0 <= i < n ==> t.remotes[i].produced == |t.remotes[i].log|
  {
    hide Stream, Streaming, Unbroken;
    SoundShaped(cfg, s);
    more, t := [], s;
    if n > 0 {
      var first, u, rest := [], s, [];
      first, u := ReadAll(cfg, s, n - 1);
      SoundShaped(cfg, u);
      rest, t := ReadOut(cfg, u, n - 1);
      LeadsOn(cfg, s, first, u, rest, t);
      more := first + rest;
    }
  }

  /**
   Nothing that a member logs is lost: from every state of every run in which nobody has cancelled
   and no member has ended its watch, once the members' watches read on, the goroutines bring the
   client exactly the changes of the selected contents from the listed position to the end of each log.
   */
  lemma CatchesUp(cfg: Config, s: State, steps: seq<Step>, s': State)
    returns (readings: seq<Step>, u: State, more: seq<Step>, t: State)
    requires Starts(cfg, s) && Leads(cfg, s, steps, s') && Unbroken(s')
    ensures Leads(cfg, s', readings, u) && forall k :: 0 <= k < |readings| ==> Reads(readings[k])
    ensures Leads(cfg, u, more, t) && (forall k :: 0 <= k < |more| ==> Carries(more[k])) && |more| <= Work(cfg, u)
    ensures Shaped(cfg, t) && AllDelivered(cfg, t) && Logs(t.remotes) == Logs(s'.remotes)
    ensures forall i :: 0 <= i < |cfg.names| ==>
              && cfg.rv[i] <= |t.remotes[i].log|
              && Observations(Delivered(t.out, i)) ==
                 Marked(cfg.names[i], Changes(t.remotes[i].log, cfg.sel, cfg.rv[i], |t.remotes[i].log|))
  {
    hide Starts, Stream, Streaming, Unbroken, AllDelivered, Carries, Reads, Work;
    StreamsRun(cfg, s, steps, s');
    readings, u := ReadAll(cfg, s', |cfg.names|);
    more, t := DeliverRest(cfg, u);
    StreamingCarried(cfg, u, t);
    forall i | 0 <= i < |cfg.names|
      ensures cfg.rv[i] <= |t.remotes[i].log|
      ensures Observations(Delivered(t.out, i)) ==
              Marked(cfg.names[i], Changes(t.remotes[i].log, cfg.sel, cfg.rv[i], |t.remotes[i].log|))
    {
      ReadIsDelivered(cfg, t, i);
    }
  }

  /** The forwarders leave the remotes as they are. */
  lemma StreamingCarried(cfg: Config, s: State, t: State)
    requires Streaming(cfg, s) && Stream(cfg, t) && t.remotes == s.remotes
    ensures Streaming(cfg, t) && Shaped(cfg, t)
  {
  }
}
