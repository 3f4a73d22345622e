/**
 The aggregate watch (pkg/apiserver/storage/watcher.go) as a step system.  One fan-in
 goroutine sends the initial events and then starts a forwarder per member; a closer
 waits for cancellation, stops the remotes, waits for the fan-in and closes the channel.
 The channel is unbuffered, so a send is one step together with the consumer's receive.
 A select with several ready cases is several enabled steps.
 */
module Watcher {
  import opened Order
  import opened Metadata
  import opened WatchLogs

  /** What the client sees: a stamped object, the initial-events bookmark, or an error status. */
  datatype Event = Observe(kind: Kind, obj: Object) | InitialDone | ErrorStatus

  /** Member i is called names[i] and was listed at position rv[i]. */
  datatype Config = Config(names: seq<string>, sel: Selection, rv: seq<nat>, watchList: bool, initial: seq<Event>)

  /** A member's log, how far its watch has read it, and all the watch has delivered. */
  datatype Remote = Remote(log: seq<Entry>, produced: nat, items: seq<Item>, ended: bool)

  datatype Pc = Unspawned | Selecting | Holding(item: Item) | Returning | Ended

  /** `taken` counts the items received, `lost` tells whether one it was holding was given up. */
  datatype Forwarder = Forwarder(pc: Pc, taken: nat, lost: bool)

  datatype FanIn = Initial(next: nat) | Spawning | Joining | Finished
  datatype Closer = Waiting | Stopping | Draining | Closed

  /** A delivered event, with where it came from. */
  datatype Sent = FromInitial(event: Event) | FromRemote(member: nat, event: Event)

  datatype State = State(remotes: seq<Remote>, fwds: seq<Forwarder>, stopped: seq<bool>, fanIn: FanIn, closer: Closer,
                         cancelled: bool, done: bool, closed: bool, out: seq<Sent>)

  /** What the forwarder of cluster c makes of an item; bookmarks are skipped. */
  function Relay(c: string, item: Item): Option<Event> {
    match item
    case Report(ch, _) => Some(Observe(ch.kind, Stamped(ch.obj, c)))
    case Progress => None
    case Failure => Some(ErrorStatus)
  }

  /** What a member and its watch may do: log an entry, read one, send a bookmark or an error, end. */
  datatype Move = Append(entry: Entry) | Read | Bookmark | Break | End

  datatype Step =
      // the fan-in goroutine
    | SendInitial | AbandonInitial | BeginSpawning | Spawn(i: nat) | FinishSpawning | Join
      // forwarder i
    | Receive(i: nat) | Send(i: nat) | ObserveDone(i: nat) | CancelAndEnd(i: nat)
      // the closer
    | Wake | StopRemote(i: nat) | FinishStopping | CloseChannel
      // the environment: the client or its request cancels, the generation ends, a member moves
    | Cancel | EndGeneration | MemberMoves(i: nat, move: Move)

  datatype Actor = TheFanIn | AForwarder | TheCloser | TheEnvironment

  function ActorOf(step: Step): Actor {
    match step
    case SendInitial | AbandonInitial | BeginSpawning | Spawn(_) | FinishSpawning | Join => TheFanIn
    case Receive(_) | Send(_) | ObserveDone(_) | CancelAndEnd(_) => AForwarder
    case Wake | StopRemote(_) | FinishStopping | CloseChannel => TheCloser
    case Cancel | EndGeneration | MemberMoves(_, _) => TheEnvironment
  }

  predicate NeedsConsumer(step: Step) {
    step.SendInitial? || step.Send?
  }

  predicate CanMove(r: Remote, stopped: bool, m: Move) {
    match m
    case Append(_) | End => true
    case Read => !stopped && !r.ended && r.produced < |r.log|
    case Bookmark | Break => !stopped && !r.ended
  }

  function Moved(r: Remote, sel: Selection, m: Move): Remote {
    match m
    case Append(e) => r.(log := r.log + [e])
    case Read =>
      if r.produced >= |r.log| then r
      else
        var ch := Observed(At(r.log, r.produced), r.log[r.produced], sel);
        var further := r.produced + 1;
        r.(produced := further, items := if ch.Some? then r.items + [Report(ch.value, further)] else r.items)
    case Bookmark => r.(items := r.items + [Progress])
    case Break => r.(items := r.items + [Failure])
    case End => r.(ended := true)
  }

  predicate Shaped(cfg: Config, s: State) {
    && |cfg.rv| == |s.remotes| == |s.fwds| == |s.stopped| == |cfg.names|
    && forall i :: 0 <= i < |s.fwds| ==> s.fwds[i].taken <= |s.remotes[i].items|
  }

  predicate Enabled(cfg: Config, s: State, step: Step)
    requires Shaped(cfg, s)
  {
    var n := |cfg.names|;
    match step
    case SendInitial => s.fanIn.Initial? && s.fanIn.next < |cfg.initial|
    case AbandonInitial => s.fanIn.Initial? && s.fanIn.next < |cfg.initial| && s.cancelled
    case BeginSpawning => s.fanIn.Initial? && s.fanIn.next >= |cfg.initial|
    case Spawn(i) => i < n && s.fanIn.Spawning? && s.fwds[i].pc.Unspawned?
    case FinishSpawning => s.fanIn.Spawning? && forall i :: 0 <= i < n ==> !s.fwds[i].pc.Unspawned?
    case Join => s.fanIn.Joining? && forall i :: 0 <= i < n ==> s.fwds[i].pc.Ended?
    case Receive(i) =>
      i < n && s.fwds[i].pc.Selecting? && (s.fwds[i].taken < |s.remotes[i].items| || s.remotes[i].ended)
    case Send(i) => i < n && s.fwds[i].pc.Holding?
    case ObserveDone(i) => i < n && (s.fwds[i].pc.Selecting? || s.fwds[i].pc.Holding?) && s.cancelled
    case CancelAndEnd(i) => i < n && s.fwds[i].pc.Returning?
    case Wake => s.closer.Waiting? && (s.cancelled || s.done)
    case StopRemote(i) => i < n && s.closer.Stopping? && !s.stopped[i]
    case FinishStopping => s.closer.Stopping? && forall i :: 0 <= i < n ==> s.stopped[i]
    case CloseChannel => s.closer.Draining? && s.fanIn.Finished?
    case Cancel | EndGeneration => true
    case MemberMoves(i, m) => i < n && CanMove(s.remotes[i], s.stopped[i], m)
  }

  /** Forwarder i after its receive, given the items its remote has delivered. */
  function Received(f: Forwarder, items: seq<Item>): Forwarder {
    if f.taken >= |items| then f.(pc := Returning)
    else f.(taken := f.taken + 1, pc := if items[f.taken].Progress? then Selecting else Holding(items[f.taken]))
  }

  function Next(cfg: Config, s: State, step: Step): State
    requires Shaped(cfg, s) && Enabled(cfg, s, step)
  {
    match step
    case SendInitial => s.(fanIn := Initial(s.fanIn.next + 1), out := s.out + [FromInitial(cfg.initial[s.fanIn.next])])
    case AbandonInitial => s.(fanIn := Finished)
    case BeginSpawning => s.(fanIn := Spawning)
    case Spawn(i) => s.(fwds := s.fwds[i := s.fwds[i].(pc := Selecting)])
    case FinishSpawning => s.(fanIn := Joining)
    case Join => s.(fanIn := Finished)
    case Receive(i) => s.(fwds := s.fwds[i := Received(s.fwds[i], s.remotes[i].items)])
    case Send(i) =>
      var event := Relay(cfg.names[i], s.fwds[i].pc.item);
      s.(fwds := s.fwds[i := s.fwds[i].(pc := Selecting)],
         out := s.out + if event.Some? then [FromRemote(i, event.value)] else [])
    case ObserveDone(i) => s.(fwds := s.fwds[i := s.fwds[i].(pc := Returning, lost := s.fwds[i].pc.Holding?)])
    case CancelAndEnd(i) => s.(fwds := s.fwds[i := s.fwds[i].(pc := Ended)], cancelled := true)
    case Wake => s.(closer := Stopping, cancelled := true)
    case StopRemote(i) => s.(stopped := s.stopped[i := true])
    case FinishStopping => s.(closer := Draining)
    case CloseChannel => s.(closer := Closed, closed := true)
    case Cancel => s.(cancelled := true)
    case EndGeneration => s.(done := true)
    case MemberMoves(i, m) => s.(remotes := s.remotes[i := Moved(s.remotes[i], cfg.sel, m)])
  }

  /** s leads to s' by the given steps. */
  ghost predicate Leads(cfg: Config, s: State, steps: seq<Step>, s': State)
    decreases |steps|
  {
    && Shaped(cfg, s)
    && if steps == [] then s' == s
       else Enabled(cfg, s, steps[0]) && Leads(cfg, Next(cfg, s, steps[0]), steps[1..], s')
  }

  // The client's replay.

  type Mirror = map<(string, Name), Object>

  /** The client keys objects by the cluster the annotation names and their own name. */
  function MirrorKey(o: Object): (string, Name) {
    (Annotation(o.annotations), NameOf(o))
  }

  function Replayed(m: Mirror, e: Event): Mirror {
    match e
    case Observe(kind, o) => if kind == Deleted then m - {MirrorKey(o)} else m[MirrorKey(o) := o]
    case _ => m
  }

  function Replay(events: seq<Event>): Mirror {
    if events == [] then map[] else Replayed(Replay(events[..|events| - 1]), events[|events| - 1])
  }

  function Events(out: seq<Sent>): seq<Event> {
    seq(|out|, i requires 0 <= i < |out| => out[i].event)
  }

  /** The mirror holds exactly the stamped views of the named members. */
  ghost predicate Mirrors(names: seq<string>, views: seq<Contents>, m: Mirror) {
    && |names| == |views|
    && (forall c, n :: (c, n) in m ==> exists i :: 0 <= i < |names| && names[i] == c && n in views[i])
    && (forall i, n :: 0 <= i < |names| && n in views[i] ==>
          (names[i], n) in m && m[(names[i], n)] == Stamped(views[i][n], names[i]))
  }

  // Set-up and start.

  function ViewsAt(logs: seq<seq<Entry>>, rv: seq<nat>, sel: Selection): seq<Contents>
    requires |rv| == |logs| && forall i :: 0 <= i < |logs| ==> rv[i] <= |logs[i]|
  {
    seq(|logs|, i requires 0 <= i < |logs| => View(At(logs[i], rv[i]), sel))
  }

  /**
   What the set-up loop hands over: one list position per member, inside its log, and with
   watch-list on the members' contents at those positions followed by the bookmark.
   */
  ghost predicate SetUp(cfg: Config, logs: seq<seq<Entry>>) {
    && |cfg.names| == |cfg.rv| == |logs| && Distinct(cfg.names)
    && (forall i :: 0 <= i < |logs| ==> cfg.rv[i] <= |logs[i]|)
    && (!cfg.watchList ==> cfg.initial == [])
    && (cfg.watchList ==>
          && cfg.initial != [] && cfg.initial[|cfg.initial| - 1] == InitialDone
          && (forall j :: 0 <= j < |cfg.initial| - 1 ==> cfg.initial[j].Observe? && cfg.initial[j].kind == Added)
          && Mirrors(cfg.names, ViewsAt(logs, cfg.rv, cfg.sel), Replay(cfg.initial)))
  }

  /** The state in which Watch returns; the generation may already be over. */
  ghost predicate Starts(cfg: Config, s: State) {
    && |s.remotes| == |s.fwds| == |s.stopped| == |cfg.names|
    && SetUp(cfg, Logs(s.remotes))
    && (forall i :: 0 <= i < |s.remotes| ==> s.remotes[i].produced == cfg.rv[i] && s.remotes[i].items == [])
    && (forall i :: 0 <= i < |s.fwds| ==> s.fwds[i] == Forwarder(Unspawned, 0, false) && !s.stopped[i])
    && s.fanIn == Initial(0) && s.closer == Waiting && !s.cancelled && !s.closed && s.out == []
  }

  function Logs(remotes: seq<Remote>): (logs: seq<seq<Entry>>)
    ensures |logs| == |remotes| && forall i :: 0 <= i < |remotes| ==> logs[i] == remotes[i].log
  {
    seq(|remotes|, i requires 0 <= i < |remotes| => remotes[i].log)
  }

  // Control: what every step keeps.

  ghost predicate Phases(initial: nat, fwds: seq<Forwarder>, stopped: seq<bool>, fanIn: FanIn, closer: Closer,
                         cancelled: bool, closed: bool)
  {
    && (fanIn.Initial? ==> fanIn.next <= initial && forall i :: 0 <= i < |fwds| ==> fwds[i].pc.Unspawned?)
    && (fanIn.Joining? ==> forall i :: 0 <= i < |fwds| ==> !fwds[i].pc.Unspawned?)
    && (fanIn.Finished? ==> cancelled || |fwds| == 0)
    && (fanIn.Finished? ==> forall i :: 0 <= i < |fwds| ==> fwds[i].pc.Ended? || fwds[i].pc.Unspawned?)
    && (forall i :: 0 <= i < |fwds| && fwds[i].pc.Ended? ==> cancelled)
    && (!closer.Waiting? ==> cancelled)
    && (closer.Draining? || closer.Closed? ==> forall i :: 0 <= i < |stopped| ==> stopped[i])
    && (closer.Closed? ==> fanIn.Finished?)
    && (closed <==> closer.Closed?)
    && (forall i :: 0 <= i < |stopped| && stopped[i] ==> !closer.Waiting?)
  }

  ghost predicate Control(cfg: Config, s: State) {
    Shaped(cfg, s) && Phases(|cfg.initial|, s.fwds, s.stopped, s.fanIn, s.closer, s.cancelled, s.closed)
  }

  lemma ControlFanIn(cfg: Config, s: State, step: Step)
    requires Control(cfg, s) && Enabled(cfg, s, step) && ActorOf(step).TheFanIn?
    ensures Control(cfg, Next(cfg, s, step))
  {
    if step.Join? && |cfg.names| > 0 {
      assert s.fwds[0].pc.Ended?;
    }
  }

  lemma ControlForwarder(cfg: Config, s: State, step: Step)
    requires Control(cfg, s) && Enabled(cfg, s, step) && ActorOf(step).AForwarder?
    ensures Control(cfg, Next(cfg, s, step))
  {
  }

  lemma ControlCloser(cfg: Config, s: State, step: Step)
    requires Control(cfg, s) && Enabled(cfg, s, step) && ActorOf(step).TheCloser?
    ensures Control(cfg, Next(cfg, s, step))
  {
  }

  lemma ControlEnvironment(cfg: Config, s: State, step: Step)
    requires Control(cfg, s) && Enabled(cfg, s, step) && ActorOf(step).TheEnvironment?
    ensures Control(cfg, Next(cfg, s, step))
  {
    if step.MemberMoves? {
      assert s.remotes[step.i].items <= Moved(s.remotes[step.i], cfg.sel, step.move).items;
    }
  }

  lemma ControlStep(cfg: Config, s: State, step: Step)
    requires Control(cfg, s) && Enabled(cfg, s, step)
    ensures Control(cfg, Next(cfg, s, step))
  {
    match ActorOf(step)
    case TheFanIn => ControlFanIn(cfg, s, step);
    case AForwarder => ControlForwarder(cfg, s, step);
    case TheCloser => ControlCloser(cfg, s, step);
    case TheEnvironment => ControlEnvironment(cfg, s, step);
  }

  lemma {:induction false} ControlRun(cfg: Config, s: State, steps: seq<Step>, s': State)
    requires Control(cfg, s) && Leads(cfg, s, steps, s')
    ensures Control(cfg, s')
    decreases |steps|
  {
    if steps != [] {
      ControlStep(cfg, s, steps[0]);
      ControlRun(cfg, Next(cfg, s, steps[0]), steps[1..], s');
    }
  }

  /**
   Channel and resource safety, in every state of every run: nothing is sent on a closed
   channel, it is closed at most once, once closed every forwarder has ended and every
   remote was stopped, and an ended forwarder means the shared context is cancelled.
   */
  lemma ChannelSafety(cfg: Config, s: State, steps: seq<Step>, s': State)
    requires Starts(cfg, s) && Leads(cfg, s, steps, s')
    ensures Shaped(cfg, s')
    ensures forall step :: Enabled(cfg, s', step) && (NeedsConsumer(step) || step.CloseChannel?) ==> !s'.closed
    ensures s'.closed ==> forall i :: 0 <= i < |cfg.names| ==>
              s'.stopped[i] && (s'.fwds[i].pc.Ended? || s'.fwds[i].pc.Unspawned?)
    ensures forall i :: 0 <= i < |cfg.names| && s'.fwds[i].pc.Ended? ==> s'.cancelled
  {
    ControlRun(cfg, s, steps, s');
  }

  // Shutdown.

  /** The watch has been told to end and has not ended yet. */
  predicate Ending(s: State) {
    (s.cancelled || s.done) && !s.closed
  }

  /**
   While ending, some goroutine can move without the consumer receiving: no deadlock.  Until
   the remotes are stopped that goroutine is the closer, whatever the others do.
   */
  lemma ShutdownProgress(cfg: Config, s: State) returns (step: Step)
    requires Control(cfg, s) && Ending(s)
    ensures Enabled(cfg, s, step) && !ActorOf(step).TheEnvironment? && !NeedsConsumer(step)
    ensures ActorOf(step).TheCloser? || forall i :: 0 <= i < |s.stopped| ==> s.stopped[i]
  {
    if s.closer.Waiting? {
      return Wake;
    }
    if s.closer.Stopping? {
      if i :| 0 <= i < |s.stopped| && !s.stopped[i] {
        return StopRemote(i);
      }
      return FinishStopping;
    }
    match s.fanIn
    case Finished => return CloseChannel;
    case Initial(k) => return if k < |cfg.initial| then AbandonInitial else BeginSpawning;
    case Spawning =>
      if i :| 0 <= i < |s.fwds| && s.fwds[i].pc.Unspawned? {
        return Spawn(i);
      }
      return FinishSpawning;
    case Joining =>
      if i :| 0 <= i < |s.fwds| && !s.fwds[i].pc.Ended? {
        return if s.fwds[i].pc.Returning? then CancelAndEnd(i) else ObserveDone(i);
      }
      return Join;
  }

  function Sum(w: seq<nat>): nat {
    if w == [] then 0 else w[0] + Sum(w[1..])
  }

  lemma {:induction false} SumUpdate(w: seq<nat>, i: nat, x: nat)
    requires i < |w|
    ensures Sum(w[i := x]) + w[i] == Sum(w) + x
  {
    if i == 0 {
      assert w[i := x][1..] == w[1..];
    } else {
      assert w[i := x][1..] == w[1..][i - 1 := x];
      SumUpdate(w[1..], i - 1, x);
    }
  }

  function PcWeight(pc: Pc): nat {
    match pc
    case Unspawned => 5
    case Holding(_) => 4
    case Selecting => 3
    case Returning => 2
    case Ended => 0
  }

  function FanInWeight(initial: nat, f: FanIn): nat {
    match f
    case Initial(k) => 4 + if k < initial then initial - k else 0
    case Spawning => 3
    case Joining => 2
    case Finished => 0
  }

  function CloserWeight(c: Closer): nat {
    match c
    case Waiting => 4
    case Stopping => 3
    case Draining => 2
    case Closed => 0
  }

  /** Work left at one member: undelivered items, its forwarder, its stop. */
  function MemberWeight(r: Remote, f: Forwarder, stopped: bool): nat {
    PcWeight(f.pc) + (if f.taken < |r.items| then 2 * (|r.items| - f.taken) else 0) + if stopped then 0 else 1
  }

  function Weights(remotes: seq<Remote>, fwds: seq<Forwarder>, stopped: seq<bool>): (w: seq<nat>)
    requires |remotes| == |fwds| == |stopped|
    ensures |w| == |fwds| && forall i :: 0 <= i < |w| ==> w[i] == MemberWeight(remotes[i], fwds[i], stopped[i])
  {
    seq(|fwds|, i requires 0 <= i < |fwds| => MemberWeight(remotes[i], fwds[i], stopped[i]))
  }

  /** Pending items and initial events, and goroutines that have not ended. */
  function Work(cfg: Config, s: State): nat
    requires Shaped(cfg, s)
  {
    Sum(Weights(s.remotes, s.fwds, s.stopped)) + FanInWeight(|cfg.initial|, s.fanIn) + CloserWeight(s.closer)
  }

  lemma WorkAt(cfg: Config, s: State, t: State, i: nat)
    requires Shaped(cfg, s) && Shaped(cfg, t) && i < |cfg.names|
    requires forall j :: 0 <= j < |cfg.names| && j != i ==>
               t.remotes[j] == s.remotes[j] && t.fwds[j] == s.fwds[j] && t.stopped[j] == s.stopped[j]
    requires t.fanIn == s.fanIn && t.closer == s.closer
    ensures Work(cfg, t) + MemberWeight(s.remotes[i], s.fwds[i], s.stopped[i]) ==
            Work(cfg, s) + MemberWeight(t.remotes[i], t.fwds[i], t.stopped[i])
  {
    var w := Weights(s.remotes, s.fwds, s.stopped);
    var x := MemberWeight(t.remotes[i], t.fwds[i], t.stopped[i]);
    SumUpdate(w, i, x);
    assert Weights(t.remotes, t.fwds, t.stopped) == w[i := x];
  }

  lemma WorkFanIn(cfg: Config, s: State, step: Step)
    requires Control(cfg, s) && Enabled(cfg, s, step) && ActorOf(step).TheFanIn? && Shaped(cfg, Next(cfg, s, step))
    ensures Work(cfg, Next(cfg, s, step)) < Work(cfg, s)
  {
    if step.Spawn? {
      WorkAt(cfg, s, Next(cfg, s, step), step.i);
    }
  }

  lemma ForwarderWeighsLess(cfg: Config, s: State, step: Step)
    requires Shaped(cfg, s) && Enabled(cfg, s, step) && ActorOf(step).AForwarder?
    ensures var i, t := step.i, Next(cfg, s, step);
            && |t.fwds| == |s.fwds| && t.remotes == s.remotes && t.stopped == s.stopped
            && MemberWeight(t.remotes[i], t.fwds[i], t.stopped[i]) < MemberWeight(s.remotes[i], s.fwds[i], s.stopped[i])
  {
  }

  lemma WorkForwarder(cfg: Config, s: State, step: Step)
    requires Control(cfg, s) && Enabled(cfg, s, step) && ActorOf(step).AForwarder? && Shaped(cfg, Next(cfg, s, step))
    ensures Work(cfg, Next(cfg, s, step)) < Work(cfg, s)
  {
    ForwarderWeighsLess(cfg, s, step);
    WorkAt(cfg, s, Next(cfg, s, step), step.i);
  }

  lemma WorkCloser(cfg: Config, s: State, step: Step)
    requires Control(cfg, s) && Enabled(cfg, s, step) && ActorOf(step).TheCloser? && Shaped(cfg, Next(cfg, s, step))
    ensures Work(cfg, Next(cfg, s, step)) < Work(cfg, s)
  {
    if step.StopRemote? {
      WorkAt(cfg, s, Next(cfg, s, step), step.i);
    }
  }

  lemma WorkEnvironment(cfg: Config, s: State, step: Step)
    requires Control(cfg, s) && Enabled(cfg, s, step)
    requires ActorOf(step).TheEnvironment? && Shaped(cfg, Next(cfg, s, step))
    requires forall i :: 0 <= i < |s.stopped| ==> s.stopped[i]
    ensures Work(cfg, Next(cfg, s, step)) == Work(cfg, s)
  {
    if step.MemberMoves? {
      WorkAt(cfg, s, Next(cfg, s, step), step.i);
    }
  }

  /** Every goroutine step uses up work; once the remotes are stopped nothing adds any. */
  lemma WorkDecreases(cfg: Config, s: State, step: Step)
    requires Control(cfg, s) && Enabled(cfg, s, step)
    ensures Shaped(cfg, Next(cfg, s, step))
    ensures !ActorOf(step).TheEnvironment? ==> Work(cfg, Next(cfg, s, step)) < Work(cfg, s)
    ensures ActorOf(step).TheEnvironment? && (forall i :: 0 <= i < |s.stopped| ==> s.stopped[i]) ==>
              Work(cfg, Next(cfg, s, step)) == Work(cfg, s)
  {
    ControlStep(cfg, s, step);
    match ActorOf(step)
    case TheFanIn => WorkFanIn(cfg, s, step);
    case AForwarder => WorkForwarder(cfg, s, step);
    case TheCloser => WorkCloser(cfg, s, step);
    case TheEnvironment =>
      if forall i :: 0 <= i < |s.stopped| ==> s.stopped[i] {
        WorkEnvironment(cfg, s, step);
      }
  }

  /** Steps of the watch's own goroutines that wait for nobody to receive. */
  predicate OnItsOwn(steps: seq<Step>) {
    forall i :: 0 <= i < |steps| ==> !ActorOf(steps[i]).TheEnvironment? && !NeedsConsumer(steps[i])
  }

  lemma EndingStays(cfg: Config, s: State, step: Step)
    requires Shaped(cfg, s) && Enabled(cfg, s, step) && (s.cancelled || s.done)
    ensures Next(cfg, s, step).cancelled || Next(cfg, s, step).done
  {
  }

  /**
   Shutdown completes: from every state of the protocol in which the watch was told to end, its
   goroutines can close the channel on their own, in no more steps than there is work.
   */
  lemma {:induction false} ShutdownCloses(cfg: Config, s: State) returns (steps: seq<Step>, s': State)
    requires Control(cfg, s) && (s.cancelled || s.done)
    ensures Leads(cfg, s, steps, s') && s'.closed && OnItsOwn(steps) && |steps| <= Work(cfg, s)
    decreases Work(cfg, s)
  {
    hide Phases;
    steps, s' := [], s;
    if !s.closed {
      var step := ShutdownProgress(cfg, s);
      ControlStep(cfg, s, step);
      WorkDecreases(cfg, s, step);
      EndingStays(cfg, s, step);
      var rest;
      rest, s' := ShutdownCloses(cfg, Next(cfg, s, step));
      steps := [step] + rest;
      assert steps[1..] == rest;
    }
  }

  function GoroutineSteps(steps: seq<Step>): nat {
    if steps == [] then 0
    else (if ActorOf(steps[0]).TheEnvironment? then 0 else 1) + GoroutineSteps(steps[1..])
  }

  lemma StoppedStays(cfg: Config, s: State, step: Step)
    requires Shaped(cfg, s) && Enabled(cfg, s, step) && forall i :: 0 <= i < |s.stopped| ==> s.stopped[i]
    ensures Next(cfg, s, step).stopped == s.stopped
  {
  }

  /**
   Shutdown terminates: from a state of the protocol whose remotes are stopped no run has
   more goroutine steps than there is work, however the environment and the consumer behave.
   */
  lemma {:induction false} ShutdownTerminates(cfg: Config, s: State, steps: seq<Step>, s': State)
    requires Control(cfg, s) && Leads(cfg, s, steps, s')
    requires forall i :: 0 <= i < |s.stopped| ==> s.stopped[i]
    ensures Shaped(cfg, s') && GoroutineSteps(steps) + Work(cfg, s') <= Work(cfg, s)
    decreases |steps|
  {
    if steps != [] {
      var t := Next(cfg, s, steps[0]);
      ControlStep(cfg, s, steps[0]);
      WorkDecreases(cfg, s, steps[0]);
      StoppedStays(cfg, s, steps[0]);
      ShutdownTerminates(cfg, t, steps[1..], s');
    }
  }

  /** The closer's own work: it is used up by the closer's steps only. */
  function StopWork(stopped: seq<bool>, closer: Closer): nat {
    CloserWeight(closer) + Sum(seq(|stopped|, i requires 0 <= i < |stopped| => if stopped[i] then 0 else 1))
  }

  function CloserSteps(steps: seq<Step>): nat {
    if steps == [] then 0 else (if ActorOf(steps[0]).TheCloser? then 1 else 0) + CloserSteps(steps[1..])
  }

  lemma StopUsesWork(stopped: seq<bool>, closer: Closer, i: nat)
    requires i < |stopped| && !stopped[i]
    ensures StopWork(stopped[i := true], closer) == StopWork(stopped, closer) - 1
  {
    var w: seq<nat> := seq(|stopped|, j requires 0 <= j < |stopped| => if stopped[j] then 0 else 1);
    var after := stopped[i := true];
    assert seq(|after|, j requires 0 <= j < |after| => if after[j] then 0 else 1) == w[i := 0];
    SumUpdate(w, i, 0);
  }

  lemma CloserStep(cfg: Config, s: State, step: Step)
    requires Shaped(cfg, s) && Enabled(cfg, s, step)
    ensures var t := Next(cfg, s, step);
            if ActorOf(step).TheCloser? then StopWork(t.stopped, t.closer) < StopWork(s.stopped, s.closer)
            else t.stopped == s.stopped && t.closer == s.closer
  {
    if step.StopRemote? {
      StopUsesWork(s.stopped, s.closer, step.i);
    }
  }

  /** In every run the closer takes a bounded number of steps, however much the members keep sending. */
  lemma {:induction false} CloserTerminates(cfg: Config, s: State, steps: seq<Step>, s': State)
    requires Leads(cfg, s, steps, s')
    ensures CloserSteps(steps) + StopWork(s'.stopped, s'.closer) <= StopWork(s.stopped, s.closer)
    decreases |steps|
  {
    if steps != [] {
      CloserStep(cfg, s, steps[0]);
      CloserTerminates(cfg, Next(cfg, s, steps[0]), steps[1..], s');
    }
  }

  /** A cancelled watch that cannot go on without its consumer has closed its channel. */
  lemma StuckMeansClosed(cfg: Config, s: State, steps: seq<Step>, s': State)
    requires Starts(cfg, s) && Leads(cfg, s, steps, s') && Shaped(cfg, s') && (s'.cancelled || s'.done)
    requires forall step :: Enabled(cfg, s', step) && !ActorOf(step).TheEnvironment? ==> NeedsConsumer(step)
    ensures s'.closed
  {
    ControlRun(cfg, s, steps, s');
    if !s'.closed {
      var step := ShutdownProgress(cfg, s');
    }
  }
}
