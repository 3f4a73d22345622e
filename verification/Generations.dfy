/**
 Server and watch together: the channel Done of a watch is that of the storage it was opened
 on, which a request finds in the storage map of the handler it was served by
 (pkg/apiserver/server.go, lines 216-244, and pkg/apiserver/storage/watcher.go, lines 121-132).
 */
module Generations {
  import Install
  import Servers
  import opened Watcher

  /** The watch in state w was opened on the entry that the handler of server state s has under this name. */
  ghost predicate OpenedOn(s: Servers.State, gv: Install.GV, name: string, now: Servers.State, w: State) {
    && s.handler.Inner?
    && var entry := Install.Lookup(s.handler.storage, gv, name);
       entry.Some? && (w.done <==> Install.DoneOf(entry.value) in now.cancelled)
  }

  /** A watch is told to end exactly when the handler it was opened on has been replaced. */
  lemma DoneIffReplaced(states: seq<Servers.State>, ops: seq<Servers.Op>, oks: seq<bool>, i: nat, k: nat,
                        gv: Install.GV, name: string, w: State)
    requires Servers.IsRun(states, ops, oks) && i <= k < |states| && OpenedOn(states[i], gv, name, states[k], w)
    ensures w.done <==> states[k].handler != states[i].handler
  {
    hide Servers.IsRun, Install.Described;
    Servers.EntriesEndWithHandler(states, ops, oks, i, k, gv, name);
  }

  /**
   Once the handler a watch was opened on is replaced, the watch can close its channel without
   its client, by a bounded number of steps of its own goroutines.  It is never stuck on the
   way, and until its remotes are stopped it is the closer that can move.
   */
  lemma ReplacedWatchShutsDown(states: seq<Servers.State>, ops: seq<Servers.Op>, oks: seq<bool>, i: nat, k: nat,
                               gv: Install.GV, name: string, cfg: Config, w: State, steps: seq<Step>, w': State)
    returns (step: Step, rest: seq<Step>, end: State)
    requires Servers.IsRun(states, ops, oks) && i <= k < |states| && states[k].handler != states[i].handler
    requires Starts(cfg, w) && Leads(cfg, w, steps, w') && OpenedOn(states[i], gv, name, states[k], w')
    ensures Leads(cfg, w', rest, end) && end.closed && OnItsOwn(rest) && |rest| <= Work(cfg, w')
    ensures !w'.closed ==>
              && Enabled(cfg, w', step) && !ActorOf(step).TheEnvironment? && !NeedsConsumer(step)
              && (ActorOf(step).TheCloser? || forall i :: 0 <= i < |w'.stopped| ==> w'.stopped[i])
  {
    DoneIffReplaced(states, ops, oks, i, k, gv, name, w');
    ControlRun(cfg, w, steps, w');
    rest, end := ShutdownCloses(cfg, w');
    step := Cancel;
    if !w'.closed {
      step := ShutdownProgress(cfg, w');
    }
  }
}
