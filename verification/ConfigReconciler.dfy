/** The configuration controller, updating its copy, its controllers and its work queue in place. */
module ConfigReconciler {
  import opened Results
  import opened Resources
  import opened ObjectKeys
  import opened ConfigProtocol

  /** A controller that is handed configurations; `failing` says whether it currently returns an error. */
  class Controller {
    var held: Holding
    var failing: bool

    constructor (held: Holding, failing: bool)
      ensures this.held == held && this.failing == failing
    {
      this.held, this.failing := held, failing;
    }

    method UpdateConfig(config: KarydiaConfig) returns (ok: bool)
      modifies `held
      ensures ok <==> !failing
      ensures held == if ok then Told(old(held), config) else old(held)
      ensures held.WholeConfig? == old(held).WholeConfig? && (ok ==> Holds(held, config))
    {
      ok := !failing;
      if ok {
        held := Told(held, config);
      }
    }
  }

  /** The API server's side of the configurations; `failing` is a transient failure of the next call. */
  class ConfigClient {
    var configs: Configs
    var nextVersion: nat
    var stream: seq<WatchEvent>
    var failing: bool

    constructor (configs: Configs, nextVersion: nat)
      ensures this.configs == configs && this.nextVersion == nextVersion && stream == [] && !failing
    {
      this.configs, this.nextVersion, stream, failing := configs, nextVersion, [], false;
    }

    method Create(config: KarydiaConfig) returns (ok: bool)
      modifies `configs, `nextVersion, `stream
      ensures ok <==> !failing && config.name !in old(configs)
      ensures ok ==>
        var stored := config.(version := old(nextVersion));
        && configs == old(configs)[config.name := stored] && nextVersion == old(nextVersion) + 1
        && stream == old(stream) + [Added(stored)]
      ensures !ok ==> configs == old(configs) && nextVersion == old(nextVersion) && stream == old(stream)
    {
      ok := !failing && config.name !in configs;
      if ok {
        var stored := config.(version := nextVersion);
        configs := configs[config.name := stored];
        nextVersion := nextVersion + 1;
        stream := stream + [Added(stored)];
      }
    }
  }

  /** The deduplicating queue: keys to do, keys being processed and keys waiting to be retried. */
  class WorkQueue {
    var dirty: set<string>
    var processing: map<string, Phase>
    var delayed: set<string>

    constructor ()
      ensures dirty == {} && processing == map[] && delayed == {}
    {
      dirty, processing, delayed := {}, map[], {};
    }

    predicate Offers(key: string)
      reads this
    {
      key in dirty && key !in processing
    }

    method Get(key: string)
      requires Offers(key)
      modifies `dirty, `processing
      ensures dirty == old(dirty) - {key} && processing == old(processing)[key := Taken]
    {
      dirty := dirty - {key};
      processing := processing[key := Taken];
    }

    method AddRateLimited(key: string)
      modifies `delayed
      ensures delayed == old(delayed) + {key}
    {
      delayed := delayed + {key};
    }

    method Done(key: string)
      modifies `processing
      ensures processing == old(processing) - {key}
    {
      processing := processing - {key};
    }
  }

  class ConfigReconciler {
    var config: KarydiaConfig
    const controllers: seq<Controller>
    const clientset: ConfigClient
    var lister: Configs
    const workqueue: WorkQueue

    constructor (config: KarydiaConfig, controllers: seq<Controller>, clientset: ConfigClient, lister: Configs)
      ensures this.config == config && this.controllers == controllers
      ensures this.clientset == clientset && this.lister == lister
      ensures fresh(workqueue) && workqueue.dirty == {} && workqueue.processing == map[] && workqueue.delayed == {}
    {
      this.config, this.controllers, this.clientset, this.lister := config, controllers, clientset, lister;
      workqueue := new WorkQueue();
    }

    /** No controller is listed twice. */
    predicate Valid() {
      forall i, k :: 0 <= i < k < |controllers| ==> controllers[i] != controllers[k]
    }

    ghost function Holdings(): seq<Holding>
      reads controllers
    {
      seq(|controllers|, i requires 0 <= i < |controllers| reads controllers => controllers[i].held)
    }

    /** The protocol state this reconciler and its surroundings are in. */
    ghost function Snapshot(): State
      reads this, clientset, workqueue, controllers
    {
      State(clientset.configs, clientset.nextVersion, clientset.stream, lister, config, Holdings(),
            workqueue.dirty, workqueue.processing, workqueue.delayed)
    }

    /** The position of the first controller from i on that returns an error, or the number of controllers. */
    ghost function FailsAt(i: nat): (n: nat)
      requires i <= |controllers|
      reads set i | 0 <= i < |controllers| :: controllers[i]`failing
      ensures i <= n <= |controllers|
      ensures forall k :: i <= k < n ==> !controllers[k].failing
      ensures n < |controllers| ==> controllers[n].failing
      decreases |controllers| - i
    {
      if i < |controllers| && !controllers[i].failing then FailsAt(i + 1) else i
    }

    predicate ReconcileIsNeeded(desired: KarydiaConfig)
      reads this
    {
      desired.spec != config.spec
    }

    /** The controllers before the first failing one end on the new configuration, the others untouched. */
    method UpdateConfig(karydiaConfig: KarydiaConfig) returns (ok: bool)
      requires Valid()
      modifies `config, set i | 0 <= i < |controllers| :: controllers[i]`held
      ensures config == karydiaConfig
      ensures ok <==> FailsAt(0) == |controllers|
      ensures Holdings() == ToldUntil(old(Holdings()), karydiaConfig, FailsAt(0))
    {
      config := karydiaConfig;
      for i := 0 to |controllers|
        invariant config == karydiaConfig && FailsAt(0) == FailsAt(i)
        invariant forall k :: 0 <= k < |controllers| ==>
          controllers[k].held == if k < i then Told(old(controllers[k].held), karydiaConfig)
                                 else old(controllers[k].held)
      {
        var told := controllers[i].UpdateConfig(karydiaConfig);
        if !told {
          return false;
        }
      }
      ok := true;
    }

    /** Recreates the configuration from memory. */
    method CreateConfig() returns (ok: bool)
      modifies clientset`configs, clientset`nextVersion, clientset`stream
      ensures ok <==> !clientset.failing && config.name !in old(clientset.configs)
      ensures Snapshot() == if ok then Created(old(Snapshot()), config) else old(Snapshot())
    {
      var desired := config;
      ok := clientset.Create(desired);
      assert Holdings() == old(Holdings());
    }

    /**
     Does what the protocol says for what the lister holds, and reports an error exactly when
     the protocol has one.
     */
    method SyncConfigHandler(key: string) returns (ok: bool)
      requires Valid()
      modifies `config, set i | 0 <= i < |controllers| :: controllers[i]`held
      modifies clientset`configs, clientset`nextVersion, clientset`stream
      ensures var found := Lookup(lister, key);
              && Snapshot() == Synced(old(Snapshot()), key, found, clientset.failing, FailsAt(0))
              && (ok <==> !SyncErrs(old(Snapshot()), key, found, clientset.failing, FailsAt(0)))
    {
      var split := SplitKey(key);
      if split.None? {
        return true;
      }
      if config.name == "" {
        return true;
      }
      if split.value.name == config.name {
        if split.value.name !in lister {
          ok := CreateConfig();
          return ok;
        }
        var found := lister[split.value.name];
        if ReconcileIsNeeded(found) {
          ok := UpdateConfig(found);
          return ok;
        }
      }
      return true;
    }

    /** One turn of a worker on a key the queue offers: take, read, act and done of the protocol, in one go. */
    method ProcessNextConfigWorkItem(key: string)
      requires Valid() && workqueue.Offers(key)
      modifies `config, set i | 0 <= i < |controllers| :: controllers[i]`held
      modifies clientset`configs, clientset`nextVersion, clientset`stream
      modifies workqueue
      ensures Snapshot() == Turn(old(Snapshot()), key, clientset.failing, FailsAt(0))
    {
      ghost var before := Snapshot();
      workqueue.Get(key);
      assert Snapshot() == Take(before, key);
      var ok := SyncConfigHandler(key);
      ghost var synced := Snapshot();
      if !ok {
        workqueue.AddRateLimited(key);
      }
      workqueue.Done(key);
      TurnEnds(before, synced, Snapshot(), key, clientset.failing, FailsAt(0));
    }
  }

  /** A worker's turn as four steps of the protocol with nothing in between. */
  function Turn(s: State, key: string, createFails: bool, failsAt: nat): State {
    Done(Act(Read(Take(s, key), key), key, Lookup(s.cache, key), createFails, failsAt), key)
  }

  /** The sync neither reads nor changes what the workers hold. */
  lemma SyncLeavesPhases(s: State, phases: map<string, Phase>, key: string, found: Option<KarydiaConfig>,
                         createFails: bool, failsAt: nat)
    ensures var t := s.(phases := phases);
            && Synced(t, key, found, createFails, failsAt)
               == Synced(s, key, found, createFails, failsAt).(phases := phases)
            && SyncErrs(t, key, found, createFails, failsAt) == SyncErrs(s, key, found, createFails, failsAt)
  {
    match Decide(s.memory, key, found) {
      case Ignore =>
      case Keep =>
      case Recreate =>
      case Adopt(c) =>
    }
  }

  /** What a turn changes besides the sync: the key leaves the queue, and is up for a retry after an error. */
  lemma TurnUnfolds(s: State, key: string, createFails: bool, failsAt: nat)
    requires key !in s.phases
    ensures var taken := Take(s, key);
            var found := Lookup(s.cache, key);
            Turn(s, key, createFails, failsAt) ==
              Synced(taken, key, found, createFails, failsAt).(
                phases := s.phases,
                retry := if SyncErrs(taken, key, found, createFails, failsAt) then s.retry + {key} else s.retry)
  {
    var taken := Take(s, key);
    var seen := Read(taken, key);
    SyncLeavesPhases(taken, seen.phases, key, Lookup(s.cache, key), createFails, failsAt);
    assert seen.phases[key := Finished] - {key} == s.phases;
  }

  /** A state that differs from the synced one as the queue's bookkeeping says is the one after the turn. */
  lemma TurnEnds(s: State, synced: State, t: State, key: string, createFails: bool, failsAt: nat)
    requires key !in s.phases
    requires synced == Synced(Take(s, key), key, Lookup(s.cache, key), createFails, failsAt)
    requires t == synced.(phases := synced.phases - {key}, retry := t.retry, controllers := t.controllers)
    requires t.controllers == synced.controllers
    requires t.retry ==
             if SyncErrs(Take(s, key), key, Lookup(s.cache, key), createFails, failsAt) then s.retry + {key}
             else s.retry
    ensures t == Turn(s, key, createFails, failsAt)
  {
    TurnUnfolds(s, key, createFails, failsAt);
    assert Take(s, key).phases - {key} == s.phases;
  }

  /** A turn is a run of the protocol, so what holds over every run of it holds for this reconciler. */
  lemma TurnIsARun(s: State, key: string, createFails: bool, failsAt: nat)
    requires key in s.dirty && key !in s.phases
    ensures exists run, actions ::
              IsRun(run, actions) && |actions| == 4 && run[0] == s && run[4] == Turn(s, key, createFails, failsAt)
  {
    var s1 := Take(s, key);
    var s2 := Read(s1, key);
    var s3 := Act(s2, key, Lookup(s.cache, key), createFails, failsAt);
    var s4 := Done(s3, key);
    var act := WorkerActs(key, createFails, failsAt);
    assert Enabled(s, WorkerTakes(key)) && Next(s, WorkerTakes(key)) == s1;
    assert Enabled(s1, WorkerReads(key)) && Next(s1, WorkerReads(key)) == s2;
    assert Enabled(s2, act) && Next(s2, act) == s3;
    assert Enabled(s3, WorkerDone(key)) && Next(s3, WorkerDone(key)) == s4;
    assert IsRun([s, s1, s2, s3, s4], [WorkerTakes(key), WorkerReads(key), act, WorkerDone(key)]);
  }
}
