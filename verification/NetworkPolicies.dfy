/**
 What the network-policy controller's handlers do, as functions and relations on
 values: the live policies, the buffer of templates, the watch events raised, and
 the number of API calls made so far in the handler run.
 */
module NetworkPolicies {
  import opened Text
  import opened Resources
  import opened ObjectKeys

  /** A policy spec: its marshalled form, and what two specs may differ in without the marshalled form showing it. */
  datatype Spec = Spec(wire: string, detail: string)

  function Marshal(spec: Spec): string {
    spec.wire
  }

  datatype Policy = Policy(name: string, namespace: string, annotations: map<string, string>, spec: Spec)

  type Store = map<Key, Policy>
  type Buffer = map<string, Policy>

  datatype World = World(live: Store, buffer: Buffer, raised: set<Key>, calls: nat)

  /**
   What a handler run reads from outside: the template resources, the namespaces, the two
   listers' caches, and which of the run's API calls fail (by position in the run).
   */
  datatype Env = Env(
    templates: map<string, Spec>,
    namespaces: map<string, Namespace>,
    lister: Store,
    namespacesLister: map<string, Namespace>,
    faults: set<nat>)

  datatype Outcome = Outcome(world: World, ok: bool)

  const DELIMITER := ';'
  const NETWORK_POLICY := "karydia.gardener.cloud/networkPolicy"
  const NETWORK_POLICY_INTERNAL := "karydia.gardener.cloud/networkPolicy.internal"

  // ------------------------------------------------------------------- API calls

  function Called(w: World): World {
    w.(calls := w.calls + 1)
  }

  predicate Fails(env: Env, w: World) {
    w.calls in env.faults
  }

  function Template(name: string, spec: Spec): Policy {
    Policy(name, "", map[], spec)
  }

  /** Loads one template into the buffer; fails when there is no such resource or the call fails. */
  function Load(env: Env, w: World, name: string): Outcome {
    if Fails(env, w) || name !in env.templates then Outcome(Called(w), false)
    else Outcome(Called(w).(buffer := w.buffer[name := Template(name, env.templates[name])]), true)
  }

  function Bare(template: Policy, ns: string): Policy {
    template.(namespace := ns)
  }

  function Labelled(template: Policy, ns: string, name: string, src: string): Policy {
    Bare(template, ns).(annotations := map[NETWORK_POLICY_INTERNAL := src + "/" + name])
  }

  /** Creation fails when the name is taken and raises no event. */
  function Create(env: Env, w: World, ns: string, name: string, src: string): Outcome
    requires name in w.buffer
  {
    var desired := Labelled(w.buffer[name], ns, name, src);
    var key := Key(ns, desired.name);
    if Fails(env, w) || key in w.live then Outcome(Called(w), false)
    else Outcome(Called(w).(live := w.live[key := desired]), true)
  }

  /** An update writes the bare template, needs the policy to exist, and raises an event. */
  function Update(env: Env, w: World, ns: string, name: string): Outcome
    requires name in w.buffer
  {
    var desired := Bare(w.buffer[name], ns);
    var key := Key(ns, desired.name);
    if Fails(env, w) || key !in w.live then Outcome(Called(w), false)
    else Outcome(Called(w).(live := w.live[key := desired], raised := w.raised + {key}), true)
  }

  predicate ReconcileIsNeeded(actual: Policy, template: Policy) {
    Marshal(actual.spec) != Marshal(template.spec)
  }

  // ------------------------------------------------------------- namespace handler

  /** Creates or updates the policy of a buffered name, going by what the lister holds. */
  function SyncBuffered(env: Env, w: World, ns: string, name: string, src: string): Outcome
    requires name in w.buffer
  {
    if Key(ns, name) !in env.lister then Create(env, w, ns, name, src)
    else if ReconcileIsNeeded(env.lister[Key(ns, name)], w.buffer[name]) then Update(env, w, ns, name)
    else Outcome(w, true)
  }

  /** One name in the namespace handler; a name that cannot be loaded is skipped. */
  function SyncName(env: Env, w: World, ns: string, name: string, src: string): Outcome {
    if name in w.buffer then SyncBuffered(env, w, ns, name, src)
    else
      var loaded := Load(env, w, name);
      if loaded.ok then SyncBuffered(env, loaded.world, ns, name, src) else Outcome(loaded.world, true)
  }

  /** The loop over the expected names; errors of one name do not stop it. */
  function SyncNames(env: Env, w: World, ns: string, names: seq<string>, src: string): World
    decreases |names|
  {
    if names == [] then w
    else SyncName(env, SyncNames(env, w, ns, names[..|names| - 1], src), ns, names[|names| - 1], src).world
  }

  // ---------------------------------------------------------------- policy handler

  /** The loop that loads missing templates; the first one that cannot be loaded ends it. */
  function LoadAll(env: Env, w: World, names: seq<string>): (r: Outcome)
    ensures r.ok ==> forall n :: n in names ==> n in r.world.buffer
    ensures w.buffer.Keys <= r.world.buffer.Keys
    decreases |names|
  {
    if names == [] then Outcome(w, true)
    else
      var last := names[|names| - 1];
      var front := LoadAll(env, w, names[..|names| - 1]);
      if !front.ok || last in front.world.buffer then front else Load(env, front.world, last)
  }

  function SyncPolicy(env: Env, w: World, ns: string, name: string, setting: Setting): Outcome {
    var names := Split(setting.value, DELIMITER);
    var loaded := LoadAll(env, w, names);
    if !loaded.ok then Outcome(loaded.world, true)
    else if name in names && name == loaded.world.buffer[name].name then
      SyncBuffered(env, loaded.world, ns, name, setting.src)
    else Outcome(loaded.world, true)
  }

  // -------------------------------------------------------------------- deletions

  /** The live policies of the namespace that are buffered but not expected. */
  function Unexpected(w: World, ns: string, names: seq<string>): set<Key> {
    set k | k in w.live && k.namespace == ns && k.name in w.buffer && k.name !in names
  }

  /** Looks one policy up and deletes it when it is there; only a failing deletion is an error. */
  function DeleteOne(env: Env, w: World, key: Key): Outcome {
    var looked := Called(w);
    if Fails(env, w) || key !in w.live then Outcome(looked, true)
    else if Fails(env, looked) then Outcome(Called(looked), false)
    else Outcome(Called(looked).(live := w.live - {key}, raised := w.raised + {key}), true)
  }

  /** The deletions of the names in this order, up to the first that fails. */
  function DeleteAll(env: Env, w: World, ns: string, order: seq<string>): Outcome
    decreases |order|
  {
    if order == [] then Outcome(w, true)
    else
      var front := DeleteAll(env, w, ns, order[..|order| - 1]);
      if front.ok then DeleteOne(env, front.world, Key(ns, order[|order| - 1])) else front
  }

  /** The order lists names of the set, none of them twice, and all of them when it is complete. */
  predicate Lists(order: seq<string>, names: set<string>, complete: bool) {
    && (forall i, k :: 0 <= i < k < |order| ==> order[i] != order[k])
    && (forall n :: n in order ==> n in names)
    && (complete ==> forall n :: n in names ==> n in order)
  }

  /**
   The deletion loop visits the buffered names that are not expected in an order that the
   map iteration leaves open, and ends early only with an error.
   */
  ghost predicate Deletes(env: Env, w: World, w': World, ns: string, names: seq<string>, err: bool) {
    exists order :: Lists(order, Undesired(w.buffer, names), !err) && DeleteAll(env, w, ns, order) == Outcome(w', !err)
  }

  function Undesired(buffer: Buffer, names: seq<string>): set<string> {
    set n | n in buffer && n !in names
  }

  /** The failing calls between two moments of a handler run. */
  function Faults(env: Env, w: World, w': World): set<nat> {
    set c | c in env.faults && w.calls <= c < w'.calls
  }

  // --------------------------------------------------------------------- handlers

  /** The configuration of the controller. */
  datatype Defaults = Defaults(enforcement: bool, names: string, excludes: seq<string>)

  function NetworkSetting(defaults: Defaults, ns: Namespace): Setting {
    if NETWORK_POLICY in ns.annotations && !defaults.enforcement then
      Setting(ns.annotations[NETWORK_POLICY], "namespace")
    else
      Setting(defaults.names, "config")
  }

  function Expected(defaults: Defaults, ns: Namespace): seq<string> {
    Split(NetworkSetting(defaults, ns).value, DELIMITER)
  }

  /** What syncNamespaceHandler does to the world on one key. */
  ghost predicate NamespaceHandled(defaults: Defaults, env: Env, w: World, w': World, key: string, err: bool) {
    if key !in env.namespacesLister || key in defaults.excludes then w' == w && !err
    else
      var ns := env.namespacesLister[key];
      var names := Expected(defaults, ns);
      Deletes(env, SyncNames(env, w, key, names, NetworkSetting(defaults, ns).src), w', key, names, err)
  }

  /** What syncNetworkPolicyHandler does to the world on one key; it asks the API server for the namespace. */
  ghost predicate PolicyHandled(defaults: Defaults, env: Env, w: World, w': World, key: string, err: bool) {
    match SplitKey(key)
    case None => w' == w && !err
    case Some(k) =>
      if Fails(env, w) || k.namespace !in env.namespaces then w' == Called(w) && !err
      else
        var ns := env.namespaces[k.namespace];
        var setting := NetworkSetting(defaults, ns);
        var synced := SyncPolicy(env, Called(w), k.namespace, k.name, setting).world;
        Deletes(env, synced, w', k.namespace, Split(setting.value, DELIMITER), err)
  }
}
