/**
 The configuration protocol as a state machine: an API server, a watch stream that lags
 behind it and feeds a cache, a deduplicating work queue with retries, and the copy of the
 configuration in memory that is handed on to the controllers. Reading the cache and acting
 on what was read are separate steps, and any number of workers may be at work.
 */
module ConfigProtocol {
  import opened Results
  import opened Resources
  import opened ObjectKeys

  type Configs = map<string, KarydiaConfig>

  /** A watch event of the API server. */
  datatype WatchEvent =
    | Added(config: KarydiaConfig)
    | Modified(config: KarydiaConfig)
    | Deleted(config: KarydiaConfig)

  /** How far the worker is that holds a key. */
  datatype Phase = Taken | Seen(found: Option<KarydiaConfig>) | Finished

  /** What a controller keeps of the configuration it was given last. */
  datatype Holding =
    | WholeConfig(config: KarydiaConfig)
    | NetworkFields(enforcement: bool, names: string)

  datatype State = State(
    api: Configs,
    nextVersion: nat,
    stream: seq<WatchEvent>,
    cache: Configs,
    memory: KarydiaConfig,
    controllers: seq<Holding>,
    dirty: set<string>,
    phases: map<string, Phase>,
    retry: set<string>)

  // ------------------------------------------------------------------ API and watch

  /** The API server stores the object under a fresh version and streams the event. */
  function Created(s: State, config: KarydiaConfig): State {
    var stored := config.(version := s.nextVersion);
    s.(api := s.api[config.name := stored], nextVersion := s.nextVersion + 1, stream := s.stream + [Added(stored)])
  }

  function Updated(s: State, config: KarydiaConfig): State {
    var stored := config.(version := s.nextVersion);
    s.(api := s.api[config.name := stored], nextVersion := s.nextVersion + 1, stream := s.stream + [Modified(stored)])
  }

  function Removed(s: State, name: string): State
    requires name in s.api
  {
    s.(api := s.api - {name}, stream := s.stream + [Deleted(s.api[name])])
  }

  function Enqueued(s: State, config: KarydiaConfig): State {
    s.(dirty := s.dirty + {KeyString(Key("", config.name))})
  }

  /**
   The informer takes the next event: it updates the cache and runs the handlers. An object
   new to the cache queues nothing, a known one only when its version differs, and a
   deletion always queues.
   */
  function Delivered(s: State): State
    requires s.stream != []
  {
    var rest := s.(stream := s.stream[1..]);
    match s.stream[0]
    case Deleted(c) => Enqueued(rest.(cache := s.cache - {c.name}), c)
    case e =>
      var c := e.config;
      var cached := rest.(cache := s.cache[c.name := c]);
      if c.name in s.cache && s.cache[c.name].version != c.version then Enqueued(cached, c) else cached
  }

  /** A resync hands every cached object to the handlers again, as it is in the cache; nothing is queued for it. */
  lemma ResyncQueuesNothing(s: State, c: KarydiaConfig)
    requires c.name in s.cache && s.cache[c.name] == c
    ensures Delivered(s.(stream := [Modified(c)] + s.stream)) == s
  {
    assert ([Modified(c)] + s.stream)[1..] == s.stream;
    assert s.cache[c.name := c] == s.cache;
  }

  /**
   A new version of a known object queues its key, and so does every deletion; an object new
   to the cache does not.
   */
  lemma DeliveryQueuesExactly(s: State, e: WatchEvent)
    ensures var s' := Delivered(s.(stream := [e] + s.stream));
            && s'.dirty == s.dirty + (
                 if e.Deleted? || (e.config.name in s.cache && s.cache[e.config.name].version != e.config.version)
                 then {e.config.name} else {})
            && s'.cache == (if e.Deleted? then s.cache - {e.config.name} else s.cache[e.config.name := e.config])
            && s'.stream == s.stream
  {
    assert ([e] + s.stream)[1..] == s.stream;
  }

  // ------------------------------------------------------------------------- worker

  /** What the sync handler makes of a key and of what the lister holds for it. */
  datatype Verdict = Ignore | Recreate | Keep | Adopt(config: KarydiaConfig)

  function Decide(memory: KarydiaConfig, key: string, found: Option<KarydiaConfig>): Verdict {
    match SplitKey(key)
    case None => Ignore
    case Some(k) =>
      if memory.name == "" || k.name != memory.name then Ignore
      else match found
        case None => Recreate
        case Some(c) => if c.spec != memory.spec then Adopt(c) else Keep
  }

  function Lookup(cache: Configs, key: string): Option<KarydiaConfig> {
    var k :- SplitKey(key);
    if k.name in cache then Some(cache[k.name]) else None
  }

  function Told(holding: Holding, config: KarydiaConfig): Holding {
    match holding
    case WholeConfig(_) => WholeConfig(config)
    case NetworkFields(_, _) => NetworkFields(config.spec.enforcement, config.spec.networkPolicies)
  }

  /** The controllers before the first failing one are told, the others are not. */
  function ToldUntil(controllers: seq<Holding>, config: KarydiaConfig, failsAt: nat): seq<Holding> {
    seq(|controllers|, i requires 0 <= i < |controllers| =>
      if i < failsAt then Told(controllers[i], config) else controllers[i])
  }

  function Take(s: State, key: string): State {
    s.(dirty := s.dirty - {key}, phases := s.phases[key := Taken])
  }

  function Read(s: State, key: string): State {
    s.(phases := s.phases[key := Seen(Lookup(s.cache, key))])
  }

  /** The rest of the sync handler, once the key was looked up. */
  function Synced(s: State, key: string, found: Option<KarydiaConfig>, createFails: bool, failsAt: nat): State {
    match Decide(s.memory, key, found)
    case Ignore => s
    case Keep => s
    case Recreate => if createFails || s.memory.name in s.api then s else Created(s, s.memory)
    case Adopt(c) => s.(memory := c, controllers := ToldUntil(s.controllers, c, failsAt))
  }

  predicate SyncErrs(s: State, key: string, found: Option<KarydiaConfig>, createFails: bool, failsAt: nat) {
    match Decide(s.memory, key, found)
    case Recreate => createFails || s.memory.name in s.api
    case Adopt(_) => failsAt < |s.controllers|
    case _ => false
  }

  /** The sync handler's second half; an error puts the key up for a retry. */
  function Act(s: State, key: string, found: Option<KarydiaConfig>, createFails: bool, failsAt: nat): State {
    Synced(s, key, found, createFails, failsAt).(
      phases := s.phases[key := Finished],
      retry := if SyncErrs(s, key, found, createFails, failsAt) then s.retry + {key} else s.retry)
  }

  function Done(s: State, key: string): State {
    s.(phases := s.phases - {key})
  }

  function Retried(s: State, key: string): State {
    s.(retry := s.retry - {key}, dirty := s.dirty + {key})
  }

  // -------------------------------------------------------------------------- steps

  datatype Action =
    | UserCreates(config: KarydiaConfig)
    | UserUpdates(config: KarydiaConfig)
    | UserDeletes(name: string)
    | WatchDelivers
    | WorkerTakes(key: string)
    | WorkerReads(key: string)
    | WorkerActs(key: string, createFails: bool, failsAt: nat)
    | WorkerDone(key: string)
    | RetryFires(key: string)

  predicate ValidName(name: string) {
    '/' !in name
  }

  predicate Enabled(s: State, a: Action) {
    match a
    case UserCreates(c) => ValidName(c.name) && c.name !in s.api
    case UserUpdates(c) => c.name in s.api
    case UserDeletes(name) => name in s.api
    case WatchDelivers => s.stream != []
    case WorkerTakes(key) => key in s.dirty && key !in s.phases
    case WorkerReads(key) => key in s.phases && s.phases[key].Taken?
    case WorkerActs(key, _, _) => key in s.phases && s.phases[key].Seen?
    case WorkerDone(key) => key in s.phases && s.phases[key].Finished?
    case RetryFires(key) => key in s.retry
  }

  function Next(s: State, a: Action): State
    requires Enabled(s, a)
  {
    match a
    case UserCreates(c) => Created(s, c)
    case UserUpdates(c) => Updated(s, c)
    case UserDeletes(name) => Removed(s, name)
    case WatchDelivers => Delivered(s)
    case WorkerTakes(key) => Take(s, key)
    case WorkerReads(key) => Read(s, key)
    case WorkerActs(key, createFails, failsAt) => Act(s, key, s.phases[key].found, createFails, failsAt)
    case WorkerDone(key) => Done(s, key)
    case RetryFires(key) => Retried(s, key)
  }

  predicate IsRun(run: seq<State>, actions: seq<Action>) {
    |run| == |actions| + 1
    && forall i :: 0 <= i < |actions| ==> Enabled(run[i], actions[i]) && run[i + 1] == Next(run[i], actions[i])
  }

  /** Start-up: the configuration was loaded from the API server, the cache is filled and nothing is queued. */
  predicate Initial(s: State, name: string) {
    && name != ""
    && (forall n :: n in s.api ==> ValidName(n) && s.api[n].name == n && s.api[n].version < s.nextVersion)
    && name in s.api && s.memory == s.api[name]
    && s.cache == s.api && s.stream == []
    && s.dirty == {} && s.phases == map[] && s.retry == {}
    && AllTold(s)
  }

  // ---------------------------------------------------------------------- agreement

  predicate Concerns(e: WatchEvent, name: string) {
    !e.Added? && e.config.name == name
  }

  /** No update or delete of the name is on its way to the cache. */
  predicate Quiet(s: State, name: string) {
    forall i :: 0 <= i < |s.stream| ==> !Concerns(s.stream[i], name)
  }

  predicate Pending(s: State, name: string) {
    name in s.dirty || name in s.retry || name in s.phases
  }

  predicate Has(s: State, name: string, spec: ConfigSpec) {
    name in s.api && s.api[name].spec == spec
  }

  /** The API server holds the configuration, with the spec in memory. */
  predicate Agreed(s: State, name: string) {
    Has(s, name, s.memory.spec)
  }

  /** The controller holds what it needs of the configuration: all of it, or the two fields for network policies. */
  predicate Holds(holding: Holding, config: KarydiaConfig) {
    match holding
    case WholeConfig(c) => c == config
    case NetworkFields(enforcement, names) =>
      enforcement == config.spec.enforcement && names == config.spec.networkPolicies
  }

  predicate SameKinds(s: State, s': State) {
    && |s'.controllers| == |s.controllers|
    && forall i :: 0 <= i < |s.controllers| ==> s'.controllers[i].WholeConfig? == s.controllers[i].WholeConfig?
  }

  predicate AllTold(s: State) {
    forall i :: 0 <= i < |s.controllers| ==> Holds(s.controllers[i], s.memory)
  }

  // ------------------------------------------------------------------- the invariant

  function Replayed(cache: Configs, e: WatchEvent): Option<Configs> {
    match e
    case Added(c) => if c.name in cache then None else Some(cache[c.name := c])
    case Modified(c) =>
      if c.name in cache && cache[c.name].version != c.version then Some(cache[c.name := c]) else None
    case Deleted(c) => if c.name in cache then Some(cache - {c.name}) else None
  }

  /** The cache after all events on their way; None for a stream that does not follow from the cache. */
  function Replay(cache: Configs, stream: seq<WatchEvent>): Option<Configs>
    decreases |stream|
  {
    if stream == [] then Some(cache)
    else
      var next :- Replayed(cache, stream[0]);
      Replay(next, stream[1..])
  }

  /** What holds about the name while its key is with a worker, or with nobody. */
  predicate Settled(s: State, name: string) {
    if name !in s.phases then Agreed(s, name)
    else match s.phases[name]
      case Taken => true
      case Seen(None) => true
      case Seen(Some(c)) => Has(s, name, c.spec)
      case Finished => Agreed(s, name)
  }

  predicate Inv(s: State, name: string) {
    && name != "" && ValidName(name) && s.memory.name == name
    && (forall n :: n in s.api ==> ValidName(n) && s.api[n].name == n && s.api[n].version < s.nextVersion)
    && (forall n :: n in s.cache ==> s.cache[n].name == n)
    && (forall i :: 0 <= i < |s.stream| ==> ValidName(s.stream[i].config.name))
    && (forall k :: k in s.dirty + s.retry + s.phases.Keys ==> ValidName(k))
    && (name in s.phases && s.phases[name].Seen? && s.phases[name].found.Some? ==>
          s.phases[name].found.value.name == name)
    && Replay(s.cache, s.stream) == Some(s.api)
    && (name in s.dirty || name in s.retry || (Quiet(s, name) ==> Settled(s, name)))
  }

  lemma {:induction false} ReplaySnoc(cache: Configs, stream: seq<WatchEvent>, e: WatchEvent)
    ensures Replay(cache, stream + [e]) ==
            match Replay(cache, stream)
            case None => None
            case Some(mid) => Replayed(mid, e)
    decreases |stream|
  {
    var all := stream + [e];
    if stream == [] {
      assert all[0] == e && all[1..] == [];
    } else {
      assert all[0] == stream[0] && all[1..] == stream[1..] + [e];
      match Replayed(cache, stream[0]) {
        case None =>
        case Some(next) => ReplaySnoc(next, stream[1..], e);
      }
    }
  }

  /** What is in the cache is in the API server unchanged while no update or delete of it is on its way. */
  lemma {:induction false} QuietIsCurrent(cache: Configs, stream: seq<WatchEvent>, name: string)
    requires Replay(cache, stream).Some?
    requires forall i :: 0 <= i < |stream| ==> !Concerns(stream[i], name)
    requires name in cache
    ensures name in Replay(cache, stream).value && Replay(cache, stream).value[name] == cache[name]
    decreases |stream|
  {
    if stream != [] {
      var next := Replayed(cache, stream[0]).value;
      assert !Concerns(stream[0], name);
      assert next[name] == cache[name];
      assert forall i :: 0 <= i < |stream[1..]| ==> stream[1..][i] == stream[i + 1];
      QuietIsCurrent(next, stream[1..], name);
    }
  }

  lemma AppendingKeepsUnquiet(s: State, s': State, e: WatchEvent, name: string)
    requires s'.stream == s.stream + [e]
    ensures Quiet(s', name) <==> Quiet(s, name) && !Concerns(e, name)
  {
    assert s'.stream[|s.stream|] == e;
    assert forall i :: 0 <= i < |s.stream| ==> s'.stream[i] == s.stream[i];
  }

  lemma UserKeepsInv(s: State, a: Action, name: string)
    requires Inv(s, name) && Enabled(s, a)
    requires a.UserCreates? || a.UserUpdates? || a.UserDeletes?
    ensures Inv(Next(s, a), name)
  {
    var s' := Next(s, a);
    var e := s'.stream[|s.stream|];
    ReplaySnoc(s.cache, s.stream, e);
    AppendingKeepsUnquiet(s, s', e, name);
  }

  lemma DeliveryKeepsInv(s: State, name: string)
    requires Inv(s, name) && s.stream != []
    ensures Inv(Delivered(s), name)
  {
    var s' := Delivered(s);
    DeliveryReplays(s, name);
    DeliveryQueues(s, name);
    assert forall i :: 0 <= i < |s'.stream| ==> s'.stream[i] == s.stream[i + 1];
    if Quiet(s', name) && !Concerns(s.stream[0], name) {
      assert Quiet(s, name);
    }
  }

  lemma DeliveryReplays(s: State, name: string)
    requires Inv(s, name) && s.stream != []
    ensures var s' := Delivered(s);
            && s'.stream == s.stream[1..]
            && Replayed(s.cache, s.stream[0]) == Some(s'.cache)
            && Replay(s'.cache, s'.stream) == Some(s'.api)
            && forall n :: n in s'.cache ==> s'.cache[n].name == n
  {
  }

  /** Delivering an update or delete of the name queues it; nothing else of the worker's state changes. */
  lemma DeliveryQueues(s: State, name: string)
    requires Inv(s, name) && s.stream != []
    ensures var s' := Delivered(s);
            && (Concerns(s.stream[0], name) ==> name in s'.dirty)
            && s.dirty <= s'.dirty <= s.dirty + {s.stream[0].config.name}
            && s'.retry == s.retry && s'.phases == s.phases && s'.memory == s.memory && s'.api == s.api
  {
    var e := s.stream[0];
    ClusterKeyRoundTrip(e.config.name);
    assert Replayed(s.cache, e).Some?;
  }

  lemma WorkerKeepsInv(s: State, a: Action, name: string)
    requires Inv(s, name) && Enabled(s, a)
    requires a.WorkerTakes? || a.WorkerReads? || a.WorkerDone? || a.RetryFires?
    ensures Inv(Next(s, a), name)
  {
    var s' := Next(s, a);
    assert s'.stream == s.stream;
    if a.WorkerReads? {
      assert ValidName(a.key);
      ClusterKeyRoundTrip(a.key);
      if a.key == name && name in s.cache && Quiet(s, name) {
        QuietIsCurrent(s.cache, s.stream, name);
      }
    }
  }

  lemma OtherKeyKeepsInv(s: State, key: string, createFails: bool, failsAt: nat, name: string)
    requires Inv(s, name) && key in s.phases && s.phases[key].Seen? && key != name
    ensures Inv(Act(s, key, s.phases[key].found, createFails, failsAt), name)
  {
    assert ValidName(key);
    ClusterKeyRoundTrip(key);
    assert Decide(s.memory, key, s.phases[key].found) == Ignore;
  }

  lemma CreationKeepsInv(s: State, failsAt: nat, name: string)
    requires Inv(s, name) && name in s.phases && s.phases[name] == Seen(None) && name !in s.api
    ensures Inv(Act(s, name, None, false, failsAt), name)
  {
    var s' := Act(s, name, None, false, failsAt);
    ClusterKeyRoundTrip(name);
    var e := s'.stream[|s.stream|];
    ReplaySnoc(s.cache, s.stream, e);
    AppendingKeepsUnquiet(s, s', e, name);
  }

  lemma ActionKeepsInv(s: State, key: string, createFails: bool, failsAt: nat, name: string)
    requires Inv(s, name) && key in s.phases && s.phases[key].Seen?
    ensures Inv(Act(s, key, s.phases[key].found, createFails, failsAt), name)
  {
    ClusterKeyRoundTrip(name);
    if key != name {
      OtherKeyKeepsInv(s, key, createFails, failsAt, name);
    } else if s.phases[name].found.None? && !createFails && name !in s.api {
      CreationKeepsInv(s, failsAt, name);
    } else {
      assert Act(s, key, s.phases[key].found, createFails, failsAt).stream == s.stream;
    }
  }

  lemma NextKeepsInv(s: State, a: Action, name: string)
    requires Inv(s, name) && Enabled(s, a)
    ensures Inv(Next(s, a), name)
  {
    match a {
      case UserCreates(_) => UserKeepsInv(s, a, name);
      case UserUpdates(_) => UserKeepsInv(s, a, name);
      case UserDeletes(_) => UserKeepsInv(s, a, name);
      case WatchDelivers => DeliveryKeepsInv(s, name);
      case WorkerActs(key, createFails, failsAt) => ActionKeepsInv(s, key, createFails, failsAt, name);
      case _ => WorkerKeepsInv(s, a, name);
    }
  }

  lemma {:induction false} RunKeepsInv(run: seq<State>, actions: seq<Action>, name: string, n: nat)
    requires IsRun(run, actions) && n < |run| && Initial(run[0], name)
    ensures Inv(run[n], name)
  {
    if n > 0 {
      RunKeepsInv(run, actions, name, n - 1);
      NextKeepsInv(run[n - 1], actions[n - 1], name);
    }
  }

  /**
   Drained means agreed: in every state of every run, when the key is neither queued nor
   being worked on nor waiting for a retry and no update or delete of it is undelivered,
   the API server holds the configuration and its spec is the one in memory.
   */
  lemma DrainedMeansAgreed(run: seq<State>, actions: seq<Action>, name: string, n: nat)
    requires IsRun(run, actions) && n < |run| && Initial(run[0], name)
    ensures !Pending(run[n], name) && Quiet(run[n], name) ==> Agreed(run[n], name)
    ensures run[n].memory.name == name
  {
    RunKeepsInv(run, actions, name, n);
  }

  // ------------------------------------------------------------------- further safety

  predicate ByUser(a: Action) {
    a.UserCreates? || a.UserUpdates? || a.UserDeletes?
  }

  /** Whatever the controller does, a configuration that is in the API server stays there as it is. */
  lemma ControllerNeverOverwrites(s: State, a: Action, n: string)
    requires Enabled(s, a) && !ByUser(a) && n in s.api
    ensures n in Next(s, a).api && Next(s, a).api[n] == s.api[n]
  {
  }

  /** The repository's controllers never fail, so an act tells all of them. */
  predicate NeverFails(run: seq<State>, actions: seq<Action>)
    requires |run| == |actions| + 1
  {
    forall i :: 0 <= i < |actions| && actions[i].WorkerActs? ==> actions[i].failsAt >= |run[i].controllers|
  }

  lemma NextKeepsAllTold(s: State, a: Action)
    requires Enabled(s, a) && AllTold(s)
    requires a.WorkerActs? ==> a.failsAt >= |s.controllers|
    ensures AllTold(Next(s, a))
  {
    var s' := Next(s, a);
    forall i | 0 <= i < |s'.controllers|
      ensures Holds(s'.controllers[i], s'.memory)
    {
      assert Holds(s.controllers[i], s.memory);
    }
  }

  /** No step changes what kind of holding a controller has, or how many controllers there are. */
  lemma NextKeepsKinds(s: State, a: Action)
    requires Enabled(s, a)
    ensures SameKinds(s, Next(s, a))
  {
  }

  lemma {:induction false} RunKeepsKinds(run: seq<State>, actions: seq<Action>, n: nat)
    requires IsRun(run, actions) && n < |run|
    ensures SameKinds(run[0], run[n])
  {
    if n > 0 {
      RunKeepsKinds(run, actions, n - 1);
      NextKeepsKinds(run[n - 1], actions[n - 1]);
      assert SameKinds(run[n - 1], run[n - 1 + 1]);
    }
  }

  /**
   With controllers that never fail, in every reachable state each of them holds, in the
   same form as at the start, exactly its part of the configuration in memory.
   */
  lemma {:induction false} ControllersAgree(run: seq<State>, actions: seq<Action>, name: string, n: nat)
    requires IsRun(run, actions) && n < |run| && Initial(run[0], name) && NeverFails(run, actions)
    ensures AllTold(run[n]) && SameKinds(run[0], run[n])
    ensures forall i :: 0 <= i < |run[n].controllers| ==>
              match run[n].controllers[i]
              case WholeConfig(c) => c == run[n].memory
              case NetworkFields(enforcement, names) =>
                enforcement == run[n].memory.spec.enforcement && names == run[n].memory.spec.networkPolicies
  {
    RunKeepsKinds(run, actions, n);
    if n > 0 {
      ControllersAgree(run, actions, name, n - 1);
      NextKeepsAllTold(run[n - 1], actions[n - 1]);
    }
  }

  /**
   After an adoption all controllers hold the new configuration exactly when none failed
   or those from the failing one on happened to hold it already.
   */
  lemma PropagationExactly(s: State, key: string, c: KarydiaConfig, failsAt: nat)
    requires Decide(s.memory, key, Some(c)) == Adopt(c)
    ensures var s' := Act(s, key, Some(c), false, failsAt);
            && s'.memory == c
            && (AllTold(s') <==> forall i :: failsAt <= i < |s.controllers| ==>
                  Holds(s.controllers[i], c))
            && (key in s'.retry <==> key in s.retry || failsAt < |s.controllers|)
  {
    var s' := Act(s, key, Some(c), false, failsAt);
    assert forall i :: 0 <= i < |s.controllers| ==>
      s'.controllers[i] == if i < failsAt then Told(s.controllers[i], c) else s.controllers[i];
    if AllTold(s') {
      assert forall i :: failsAt <= i < |s.controllers| ==> Holds(s'.controllers[i], s'.memory);
    }
  }

  /** The retry after a failed propagation finds equal specs and tells nobody. */
  lemma RetryDoesNotPropagate(s: State, key: string, c: KarydiaConfig, failsAt: nat, createFails: bool, failsAt': nat)
    requires Decide(s.memory, key, Some(c)) == Adopt(c)
    ensures var failed := Act(s, key, Some(c), false, failsAt);
            Act(failed, key, Some(c), createFails, failsAt').controllers == failed.controllers
  {
  }

  // -------------------------------------------------------------- draining is possible

  /** A sequence of deliveries, worker steps without failures and retries leads from one state to the other. */
  predicate Leads(s: State, actions: seq<Action>, s': State)
    decreases |actions|
  {
    if actions == [] then s == s'
    else
      var a := actions[0];
      && !ByUser(a)
      && (a.WorkerActs? ==> !a.createFails && a.failsAt >= |s.controllers|)
      && Enabled(s, a) && Leads(Next(s, a), actions[1..], s')
  }

  ghost predicate CanReach(s: State, s': State) {
    exists actions :: Leads(s, actions, s')
  }

  lemma {:induction false} LeadsOn(s: State, first: seq<Action>, mid: State, second: seq<Action>, s': State)
    requires Leads(s, first, mid) && Leads(mid, second, s')
    ensures Leads(s, first + second, s')
    decreases |first|
  {
    if first == [] {
      assert first + second == second;
    } else {
      assert (first + second)[1..] == first[1..] + second;
      LeadsOn(Next(s, first[0]), first[1..], mid, second, s');
    }
  }

  lemma ReachOn(s: State, mid: State, s': State)
    requires CanReach(s, mid) && CanReach(mid, s')
    ensures CanReach(s, s')
  {
    var first :| Leads(s, first, mid);
    var second :| Leads(mid, second, s');
    LeadsOn(s, first, mid, second, s');
  }

  lemma ReachSelf(s: State)
    ensures CanReach(s, s)
  {
    assert Leads(s, [], s);
  }

  lemma ReachNext(s: State, a: Action, name: string)
    requires Inv(s, name) && Enabled(s, a) && !ByUser(a)
    requires a.WorkerActs? ==> !a.createFails && a.failsAt >= |s.controllers|
    ensures CanReach(s, Next(s, a)) && Inv(Next(s, a), name)
  {
    assert [a][1..] == [];
    assert Leads(Next(s, a), [], Next(s, a));
    assert Leads(s, [a], Next(s, a));
    NextKeepsInv(s, a, name);
  }

  /** All events can be delivered; a key with a worker stays there. */
  lemma {:induction false} DeliverAll(s: State, name: string) returns (s': State)
    requires Inv(s, name)
    ensures CanReach(s, s') && Inv(s', name) && s'.stream == [] && s'.cache == s'.api
    ensures s'.phases == s.phases && s'.retry == s.retry
    ensures name in s'.dirty ==> name in s.dirty || !Quiet(s, name)
    decreases |s.stream|
  {
    if s.stream == [] {
      ReachSelf(s);
      s' := s;
    } else {
      var next := Delivered(s);
      ReachNext(s, WatchDelivers, name);
      s' := DeliverAll(next, name);
      ReachOn(s, next, s');
      var e := s.stream[0];
      assert Replayed(s.cache, e).Some?;
      ClusterKeyRoundTrip(e.config.name);
      if Quiet(s, name) {
        assert !Concerns(e, name);
        assert forall i :: 0 <= i < |next.stream| ==> next.stream[i] == s.stream[i + 1];
      }
    }
  }

  /** A worker that has looked the key up finishes it. */
  lemma FinishSeen(s: State, name: string) returns (s': State)
    requires Inv(s, name) && name in s.phases && s.phases[name].Seen? && s.stream == []
    ensures CanReach(s, s') && Inv(s', name) && name !in s'.phases && s'.dirty == s.dirty
    ensures forall i :: 0 <= i < |s'.stream| ==> !Concerns(s'.stream[i], name)
    ensures name in s'.retry ==> name in s.retry || (s.phases[name].found.None? && name in s.api)
  {
    var act := WorkerActs(name, false, |s.controllers|);
    ReachNext(s, act, name);
    var mid := Next(s, act);
    ClusterKeyRoundTrip(name);
    ReachNext(mid, WorkerDone(name), name);
    s' := Next(mid, WorkerDone(name));
    ReachOn(s, mid, s');
  }

  /** A worker that holds the key with nothing on its way finishes it without an error. */
  lemma FinishTaken(s: State, name: string) returns (s': State)
    requires Inv(s, name) && name in s.phases && s.phases[name].Taken? && s.stream == [] && s.cache == s.api
    ensures CanReach(s, s') && Inv(s', name) && name !in s'.phases && s'.dirty == s.dirty
    ensures forall i :: 0 <= i < |s'.stream| ==> !Concerns(s'.stream[i], name)
    ensures name in s'.retry ==> name in s.retry
  {
    ReachNext(s, WorkerReads(name), name);
    var mid := Next(s, WorkerReads(name));
    ClusterKeyRoundTrip(name);
    s' := FinishSeen(mid, name);
    ReachOn(s, mid, s');
  }

  /** Brings the key out of the hands of a worker that holds it. */
  lemma Release(s: State, name: string) returns (s': State)
    requires Inv(s, name)
    ensures CanReach(s, s') && Inv(s', name) && name !in s'.phases && s'.stream == [] && s'.cache == s'.api
  {
    var s1 := DeliverAll(s, name);
    var s2 := s1;
    ReachSelf(s1);
    if name in s1.phases {
      match s1.phases[name] {
        case Taken => s2 := FinishTaken(s1, name);
        case Seen(_) => s2 := FinishSeen(s1, name);
        case Finished =>
          ReachNext(s1, WorkerDone(name), name);
          s2 := Next(s1, WorkerDone(name));
      }
    }
    s' := DeliverAll(s2, name);
    ReachOn(s, s1, s2);
    ReachOn(s, s2, s');
  }

  /** A queued key that no worker holds is taken and finished without an error. */
  lemma DrainQueued(s: State, name: string) returns (s': State)
    requires Inv(s, name) && name in s.dirty && name !in s.phases && name !in s.retry
    requires s.stream == [] && s.cache == s.api
    ensures CanReach(s, s') && Inv(s', name) && !Pending(s', name) && Quiet(s', name)
  {
    ReachNext(s, WorkerTakes(name), name);
    var taken := Next(s, WorkerTakes(name));
    var finished := FinishTaken(taken, name);
    ReachOn(s, taken, finished);
    s' := DeliverAll(finished, name);
    ReachOn(s, finished, s');
  }

  /** A key that no worker holds is drained, after its retry if it has one. */
  lemma DrainReleased(s: State, name: string) returns (s': State)
    requires Inv(s, name) && name !in s.phases && s.stream == [] && s.cache == s.api
    ensures CanReach(s, s') && Inv(s', name) && !Pending(s', name) && Quiet(s', name)
  {
    if name in s.retry {
      ReachNext(s, RetryFires(name), name);
      var queued := Next(s, RetryFires(name));
      s' := DrainQueued(queued, name);
      ReachOn(s, queued, s');
    } else if name in s.dirty {
      s' := DrainQueued(s, name);
    } else {
      ReachSelf(s);
      s' := s;
    }
  }

  /**
   From every reachable state, deliveries, worker steps and retries alone can drain the
   key, and the API server and the memory then agree.
   */
  lemma CanAlwaysDrain(run: seq<State>, actions: seq<Action>, name: string, n: nat)
    requires IsRun(run, actions) && n < |run| && Initial(run[0], name)
    ensures exists s' :: CanReach(run[n], s') && !Pending(s', name) && Quiet(s', name) && Agreed(s', name)
  {
    RunKeepsInv(run, actions, name, n);
    var released := Release(run[n], name);
    var drained := DrainReleased(released, name);
    ReachOn(run[n], released, drained);
    assert Settled(drained, name);
  }
}
