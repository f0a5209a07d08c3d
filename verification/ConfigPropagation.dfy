/**
 How the configuration spreads to controllers that may fail: only an adoption tells them
 anything, so one that was not told stays behind until the next adopted spec.
 */
module ConfigPropagation {
  import opened Resources
  import opened ObjectKeys
  import opened ConfigProtocol
  import opened ConfigDraining
  import ConfigReconciler

  /** A step that leaves the spec in memory as it is tells no controller anything. */
  lemma OnlyAdoptionsTell(s: State, a: Action)
    requires Enabled(s, a) && Next(s, a).memory.spec == s.memory.spec
    ensures Next(s, a).controllers == s.controllers
  {
  }

  /** So over any stretch of any run in which no new spec is adopted, a controller that was not told stays behind. */
  lemma {:induction false} StaysBehind(run: seq<State>, actions: seq<Action>, n: nat, m: nat)
    requires IsRun(run, actions) && n <= m < |run|
    requires forall j :: n <= j < m ==> run[j + 1].memory.spec == run[j].memory.spec
    ensures run[m].controllers == run[n].controllers
    decreases m - n
  {
    if n < m {
      StaysBehind(run, actions, n, m - 1);
      assert run[m - 1 + 1] == Next(run[m - 1], actions[m - 1]);
      OnlyAdoptionsTell(run[m - 1], actions[m - 1]);
    }
  }

  /** The protocol at the start, with one controller that holds the whole configuration. */
  function Fresh(config: KarydiaConfig): State {
    var configs := map[config.name := config];
    State(configs, config.version + 1, [], configs, config, [WholeConfig(config)], {}, map[], {})
  }

  lemma RunsJoin(first: seq<State>, acts1: seq<Action>, second: seq<State>, acts2: seq<Action>)
    requires IsRun(first, acts1) && IsRun(second, acts2) && first[|first| - 1] == second[0]
    ensures IsRun(first + second[1..], acts1 + acts2)
    ensures (first + second[1..])[0] == first[0]
    ensures (first + second[1..])[|first| + |second| - 2] == second[|second| - 1]
  {
    var run, actions := first + second[1..], acts1 + acts2;
    forall i | 0 <= i < |actions|
      ensures Enabled(run[i], actions[i]) && run[i + 1] == Next(run[i], actions[i])
    {
      if i >= |acts1| {
        var j := i - |acts1|;
        assert run[i] == second[j] && run[i + 1] == second[j + 1] && actions[i] == acts2[j];
      }
    }
  }

  /** Some run leads from one state to the other. */
  ghost predicate LeadsTo(s: State, s': State) {
    exists run, actions :: IsRun(run, actions) && run[0] == s && run[|run| - 1] == s'
  }

  lemma JoinLeads(s: State, mid: State, s': State)
    requires LeadsTo(s, mid) && LeadsTo(mid, s')
    ensures LeadsTo(s, s')
  {
    var first, acts1 :| IsRun(first, acts1) && first[0] == s && first[|first| - 1] == mid;
    var second, acts2 :| IsRun(second, acts2) && second[0] == mid && second[|second| - 1] == s';
    RunsJoin(first, acts1, second, acts2);
    var run := first + second[1..];
    assert run[|run| - 1] == s';
  }

  lemma ActionLeads(s: State, a: Action)
    requires Enabled(s, a)
    ensures LeadsTo(s, Next(s, a))
  {
    assert IsRun([s, Next(s, a)], [a]);
  }

  /** A worker's turn on a queued key that nobody holds. */
  lemma TurnLeads(s: State, name: string, failsAt: nat) returns (s': State)
    requires name in s.dirty && name !in s.phases
    ensures LeadsTo(s, s')
    ensures var taken, found := Take(s, name), Lookup(s.cache, name);
            s' == Synced(taken, name, found, false, failsAt).(
              phases := s.phases,
              retry := if SyncErrs(taken, name, found, false, failsAt) then s.retry + {name} else s.retry)
  {
    ConfigReconciler.TurnUnfolds(s, name, false, failsAt);
    ConfigReconciler.TurnIsARun(s, name, false, failsAt);
    s' := ConfigReconciler.Turn(s, name, false, failsAt);
    var run, actions :| IsRun(run, actions) && |actions| == 4 && run[0] == s && run[4] == s';
    assert run[|run| - 1] == s';
  }

  /** The update reaches the cache and the queue. */
  lemma UpdateArrives(config: KarydiaConfig, spec: ConfigSpec) returns (s: State)
    requires config.name != "" && ValidName(config.name)
    ensures LeadsTo(Fresh(config), s)
    ensures var stored := config.(spec := spec, version := config.version + 1);
            s == Fresh(config).(api := map[config.name := stored], cache := map[config.name := stored],
                                nextVersion := config.version + 2, dirty := {config.name})
  {
    ClusterKeyRoundTrip(config.name);
    var start := Fresh(config);
    var updated := Updated(start, config.(spec := spec));
    ActionLeads(start, UserUpdates(config.(spec := spec)));
    s := Delivered(updated);
    ActionLeads(updated, WatchDelivers);
    JoinLeads(start, updated, s);
  }

  /**
   A controller that fails once can stay behind: the configuration is updated, the adoption
   meets the failure, and the retry finds equal specs. Everything is at rest and in agreement,
   and the controller holds what it held at the start.
   */
  lemma PropagationCanFail(config: KarydiaConfig, spec: ConfigSpec) returns (s: State)
    requires config.name != "" && ValidName(config.name) && spec != config.spec
    ensures Initial(Fresh(config), config.name) && LeadsTo(Fresh(config), s)
    ensures Resting(s) && Agreed(s, config.name) && s.memory.spec == spec && !AllTold(s)
  {
    var name, start := config.name, Fresh(config);
    ClusterKeyRoundTrip(name);
    var arrived := UpdateArrives(config, spec);
    var failed := TurnLeads(arrived, name, 0);
    JoinLeads(start, arrived, failed);
    assert failed.dirty == {} && failed.retry == {name};
    var again := Retried(failed, name);
    ActionLeads(failed, RetryFires(name));
    JoinLeads(start, failed, again);
    assert again.dirty == {name} && again.retry == {};
    s := TurnLeads(again, name, 1);
    JoinLeads(start, again, s);
    StaysUntold(failed, s, config);
  }

  lemma StaysUntold(failed: State, s: State, config: KarydiaConfig)
    requires failed.controllers == ToldUntil([WholeConfig(config)], failed.memory, 0)
    requires s.controllers == failed.controllers && s.memory.spec != config.spec
    ensures !AllTold(s)
  {
    assert s.controllers[0] == WholeConfig(config) && !Holds(s.controllers[0], s.memory);
  }
}
