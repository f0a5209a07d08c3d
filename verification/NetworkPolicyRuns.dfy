/**
 Whole runs of the network-policy controller: it never feeds itself forever although its
 own updates and deletes queue new work, and over arbitrary runs the template buffer never
 forgets or changes an entry.
 */
module NetworkPolicyRuns {
  import opened Text
  import opened Resources
  import opened ObjectKeys
  import opened NetworkPolicies
  import opened NetworkPolicyLaws
  import opened NetworkPolicyConvergence

  // --------------------------------------------- handler steps with settings held fixed

  /** What does not change while the controller is left alone. */
  datatype Fixed = Fixed(defaults: Defaults, templates: map<string, Spec>, namespaces: map<string, Namespace>)

  datatype System = System(live: Store, buffer: Buffer, policyQueue: set<string>, namespaceQueue: set<string>)

  /** One handler run: the key taken from a queue, the world afterwards and whether it failed. */
  datatype Move =
    | NamespaceMove(key: string, after: World, err: bool)
    | PolicyMove(key: string, after: World, err: bool)

  /** No API call fails and the listers show the live state. */
  function InSync(fixed: Fixed, live: Store): Env {
    Env(fixed.templates, fixed.namespaces, live, fixed.namespaces, {})
  }

  function Start(s: System): World {
    World(s.live, s.buffer, {}, 0)
  }

  function Keys(raised: set<Key>): set<string> {
    set k | k in raised :: KeyString(k)
  }

  /** The handler runs on a queued key; its events queue their policies' keys, and an error requeues its own. */
  ghost predicate StepBy(fixed: Fixed, env: Env, s: System, move: Move, s': System) {
    && s'.live == move.after.live
    && s'.buffer == move.after.buffer
    && match move
       case NamespaceMove(key, after, err) =>
         && key in s.namespaceQueue
         && NamespaceHandled(fixed.defaults, env, Start(s), after, key, err)
         && s'.namespaceQueue == s.namespaceQueue - (if err then {} else {key})
         && s'.policyQueue == s.policyQueue + Keys(after.raised)
       case PolicyMove(key, after, err) =>
         && key in s.policyQueue
         && PolicyHandled(fixed.defaults, env, Start(s), after, key, err)
         && s'.namespaceQueue == s.namespaceQueue
         && s'.policyQueue == s.policyQueue - (if err then {} else {key}) + Keys(after.raised)
  }

  /** A handler run in which nothing fails. */
  ghost predicate Step(fixed: Fixed, s: System, s': System) {
    exists move :: StepBy(fixed, InSync(fixed, s.live), s, move, s')
  }

  predicate Idle(s: System) {
    s.policyQueue == {} && s.namespaceQueue == {}
  }

  // ------------------------------------------------------------------- termination

  /** Loadable templates that are not buffered yet. */
  function Unloaded(fixed: Fixed, s: System): nat {
    |fixed.templates.Keys - s.buffer.Keys|
  }

  predicate Deviates(fixed: Fixed, live: Store, buffer: Buffer, k: Key) {
    && k in live && k.namespace in fixed.namespaces && k.name in buffer
    && (k.name in Expected(fixed.defaults, fixed.namespaces[k.namespace]) ==>
          ReconcileIsNeeded(live[k], buffer[k.name]))
  }

  /** Live policies, over all namespaces, that are stale or should not be there. */
  function Deviations(fixed: Fixed, live: Store, buffer: Buffer): set<Key> {
    set k | k in live && Deviates(fixed, live, buffer, k)
  }

  function Queued(s: System): nat {
    |s.policyQueue| + |s.namespaceQueue|
  }

  /** The lexicographic order of (templates to load, deviations, queued keys). */
  predicate Decreases(fixed: Fixed, s: System, s': System) {
    var d, d' := |Deviations(fixed, s.live, s.buffer)|, |Deviations(fixed, s'.live, s'.buffer)|;
    Unloaded(fixed, s') < Unloaded(fixed, s)
    || (Unloaded(fixed, s') == Unloaded(fixed, s) && (d' < d || (d' == d && Queued(s') < Queued(s))))
  }

  lemma LoadingDecreases(fixed: Fixed, s: System, s': System)
    requires Grows(s.buffer, s'.buffer) && s'.buffer != s.buffer
    requires forall n :: n in s'.buffer ==> n in s.buffer || n in fixed.templates
    ensures Unloaded(fixed, s') < Unloaded(fixed, s)
  {
    assert s'.buffer.Keys != s.buffer.Keys;
    var n :| n in s'.buffer && n !in s.buffer;
    var rest, rest' := fixed.templates.Keys - s.buffer.Keys, fixed.templates.Keys - s'.buffer.Keys;
    assert n in rest && n !in rest';
    Smaller(rest', rest - {n});
  }

  /** A run that repairs exactly the deviations it raises events for, and loads nothing, decreases the measure. */
  lemma RepairingDecreases(fixed: Fixed, s: System, s': System, raised: set<Key>)
    requires s'.buffer == s.buffer
    requires raised <= Deviations(fixed, s.live, s.buffer)
    requires Deviations(fixed, s'.live, s.buffer) == Deviations(fixed, s.live, s.buffer) - raised
    requires raised == {} ==> Queued(s') < Queued(s)
    ensures Decreases(fixed, s, s')
  {
    var d := Deviations(fixed, s.live, s.buffer);
    if raised != {} {
      var k :| k in raised;
      Smaller(d - raised, d - {k});
    } else {
      assert d - raised == d;
    }
  }

  lemma ReconciledRepairs(fixed: Fixed, live: Store, live': Store, buffer: Buffer, ns: string)
    requires ns in fixed.namespaces
    requires Reconciled(live, live', buffer, ns, Expected(fixed.defaults, fixed.namespaces[ns]),
                        NetworkSetting(fixed.defaults, fixed.namespaces[ns]).src)
    ensures var raised := Deviating(live, buffer, ns, Expected(fixed.defaults, fixed.namespaces[ns]));
            && raised <= Deviations(fixed, live, buffer)
            && Deviations(fixed, live', buffer) == Deviations(fixed, live, buffer) - raised
  {
    var names := Expected(fixed.defaults, fixed.namespaces[ns]);
    var raised := Deviating(live, buffer, ns, names);
    forall k
      ensures Deviates(fixed, live', buffer, k) <==> Deviates(fixed, live, buffer, k) && k !in raised
    {
    }
  }

  lemma PolicyEffectRepairs(fixed: Fixed, w: World, w': World, ns: string, src: string, target: set<Key>)
    requires ns in fixed.namespaces && w'.buffer == w.buffer && w.raised == {}
    requires PolicyEffect(w, w', ns, Expected(fixed.defaults, fixed.namespaces[ns]), src, target)
    ensures w'.raised <= Deviations(fixed, w.live, w.buffer)
    ensures Deviations(fixed, w'.live, w.buffer) == Deviations(fixed, w.live, w.buffer) - w'.raised
  {
    var names := Expected(fixed.defaults, fixed.namespaces[ns]);
    forall k
      ensures Deviates(fixed, w'.live, w.buffer, k) <==> Deviates(fixed, w.live, w.buffer, k) && k !in w'.raised
    {
    }
  }

  lemma NamespaceEffectDecreases(fixed: Fixed, s: System, after: World, key: string, s': System)
    requires key in fixed.namespaces && s'.live == after.live && s'.buffer == after.buffer
    requires HandlerEffect(Start(s), after,
                           Resolved(fixed.templates, s.buffer, Expected(fixed.defaults, fixed.namespaces[key])),
                           key, Expected(fixed.defaults, fixed.namespaces[key]),
                           NetworkSetting(fixed.defaults, fixed.namespaces[key]).src)
    requires after.raised == {} ==> Queued(s') < Queued(s)
    ensures Decreases(fixed, s, s')
  {
    var names := Expected(fixed.defaults, fixed.namespaces[key]);
    if s'.buffer != s.buffer {
      LoadingDecreases(fixed, s, s');
    } else {
      ReconciledRepairs(fixed, s.live, s'.live, s.buffer, key);
      assert after.raised == Deviating(s.live, s.buffer, key, names);
      RepairingDecreases(fixed, s, s', after.raised);
    }
  }

  lemma QueueShrinks(queue: set<string>, key: string)
    requires key in queue
    ensures |queue - {key}| < |queue|
  {
  }

  lemma NamespaceStepDecreases(fixed: Fixed, s: System, move: Move, s': System)
    requires BufferOk(s.buffer) && move.NamespaceMove? && StepBy(fixed, InSync(fixed, s.live), s, move, s')
    ensures Decreases(fixed, s, s') && !move.err
  {
    var key, after := move.key, move.after;
    QueueShrinks(s.namespaceQueue, key);
    if key in fixed.namespaces && key !in fixed.defaults.excludes {
      NamespaceHandlerReconciles(fixed.defaults, InSync(fixed, s.live), Start(s), after, key, move.err);
      NamespaceEffectDecreases(fixed, s, after, key, s');
    } else {
      RepairingDecreases(fixed, s, s', {});
    }
  }

  lemma PolicyStepDecreases(fixed: Fixed, s: System, move: Move, s': System)
    requires BufferOk(s.buffer) && move.PolicyMove? && StepBy(fixed, InSync(fixed, s.live), s, move, s')
    ensures Decreases(fixed, s, s') && !move.err
  {
    var after := move.after;
    var split := SplitKey(move.key);
    if split.Some? && split.value.namespace in fixed.namespaces {
      var ns := split.value.namespace;
      var names := Expected(fixed.defaults, fixed.namespaces[ns]);
      PolicyHandlerReconciles(fixed.defaults, InSync(fixed, s.live), Start(s), after, move.key, split.value, move.err);
      if s'.buffer != s.buffer {
        LoadingDecreases(fixed, s, s');
      } else {
        PolicyEffectRepairs(fixed, Start(s), after, ns, NetworkSetting(fixed.defaults, fixed.namespaces[ns]).src,
          Target(fixed.templates, s.buffer, ns, names, split.value.name));
        RepairingDecreases(fixed, s, s', after.raised);
      }
    } else {
      RepairingDecreases(fixed, s, s', {});
    }
  }

  /** Every handler step strictly decreases the measure, although its own writes queue new keys. */
  lemma StepDecreases(fixed: Fixed, s: System, s': System)
    requires BufferOk(s.buffer) && Step(fixed, s, s')
    ensures Decreases(fixed, s, s')
    ensures BufferOk(s'.buffer) && Grows(s.buffer, s'.buffer)
  {
    var move :| StepBy(fixed, InSync(fixed, s.live), s, move, s');
    match move {
      case NamespaceMove(key, after, err) =>
        NamespaceStepDecreases(fixed, s, move, s');
        NamespaceHandlerIsSafe(fixed.defaults, InSync(fixed, s.live), Start(s), after, key, err);
      case PolicyMove(key, after, err) =>
        PolicyStepDecreases(fixed, s, move, s');
        PolicyHandlerIsSafe(fixed.defaults, InSync(fixed, s.live), Start(s), after, key, err);
    }
  }

  ghost predicate StepAt(fixed: Fixed, run: nat -> System, n: nat) {
    Step(fixed, run(n), run(n + 1))
  }

  lemma StepAtDecreases(fixed: Fixed, run: nat -> System, n: nat)
    requires BufferOk(run(n).buffer) && StepAt(fixed, run, n)
    ensures Decreases(fixed, run(n), run(n + 1)) && BufferOk(run(n + 1).buffer)
  {
    StepDecreases(fixed, run(n), run(n + 1));
  }

  /** The controller never feeds itself forever: no infinite sequence of states consists of handler steps. */
  lemma {:induction false} NeverFeedsItselfForever(fixed: Fixed, run: nat -> System, from: nat)
    requires BufferOk(run(from).buffer)
    ensures exists stop :: stop >= from && !StepAt(fixed, run, stop)
    decreases Unloaded(fixed, run(from)), |Deviations(fixed, run(from).live, run(from).buffer)|, Queued(run(from))
  {
    if StepAt(fixed, run, from) {
      StepAtDecreases(fixed, run, from);
      NeverFeedsItselfForever(fixed, run, from + 1);
    }
  }

  // ------------------------------------------------------------- what a step queues

  /** The policies of one state that the other one has lost or has otherwise. */
  function Changed(live: Store, live': Store): set<Key> {
    set k | k in live && (k !in live' || live'[k] != live[k])
  }

  /**
   A handler run without failures raises an event for every policy it updated or deleted, and
   for nothing else: creations raise none.
   */
  lemma StepQueuesExactly(fixed: Fixed, s: System, move: Move, s': System)
    requires BufferOk(s.buffer) && StepBy(fixed, InSync(fixed, s.live), s, move, s')
    ensures s'.policyQueue == (if move.PolicyMove? then s.policyQueue - {move.key} else s.policyQueue)
                              + set k | k in Changed(s.live, s'.live) :: KeyString(k)
    ensures s'.namespaceQueue == if move.PolicyMove? then s.namespaceQueue else s.namespaceQueue - {move.key}
  {
    match move {
      case NamespaceMove(key, after, err) =>
        if Handled(fixed, key) {
          NamespaceHandlerReconciles(fixed.defaults, InSync(fixed, s.live), Start(s), after, key, err);
          NamespaceEventsAreExact(fixed, Start(s), after, key);
        }
      case PolicyMove(key, after, err) =>
        var split := SplitKey(key);
        if split.Some? && split.value.namespace in fixed.namespaces {
          PolicyHandlerReconciles(fixed.defaults, InSync(fixed, s.live), Start(s), after, key, split.value, err);
          PolicyEventsAreExact(fixed, Start(s), after, split.value.namespace,
            Target(fixed.templates, s.buffer, split.value.namespace,
                   Expected(fixed.defaults, fixed.namespaces[split.value.namespace]), split.value.name));
        }
    }
    assert move.after.raised == Changed(s.live, s'.live);
  }

  lemma NamespaceEventsAreExact(fixed: Fixed, w: World, w': World, ns: string)
    requires ns in fixed.namespaces && w.raised == {}
    requires HandlerEffect(w, w', w'.buffer, ns, Expected(fixed.defaults, fixed.namespaces[ns]),
                           NetworkSetting(fixed.defaults, fixed.namespaces[ns]).src)
    ensures w'.raised == Changed(w.live, w'.live)
  {
  }

  lemma PolicyEventsAreExact(fixed: Fixed, w: World, w': World, ns: string, target: set<Key>)
    requires ns in fixed.namespaces && w.raised == {}
    requires PolicyEffect(w, w', ns, Expected(fixed.defaults, fixed.namespaces[ns]),
                          NetworkSetting(fixed.defaults, fixed.namespaces[ns]).src, target)
    ensures w'.raised == Changed(w.live, w'.live)
  {
  }

  // ----------------------------------------------------------- steps are always possible

  predicate Handled(fixed: Fixed, ns: string) {
    ns in fixed.namespaces && ns !in fixed.defaults.excludes
  }

  /** A queued namespace can be handled. */
  lemma NamespaceStepPossible(fixed: Fixed, s: System, key: string) returns (move: Move, s': System)
    requires key in s.namespaceQueue
    ensures move.NamespaceMove? && move.key == key && StepBy(fixed, InSync(fixed, s.live), s, move, s') && !move.err
  {
    var after := Start(s);
    if Handled(fixed, key) {
      after := HandlerRuns(fixed.defaults, InSync(fixed, s.live), Start(s), key);
    }
    move := NamespaceMove(key, after, false);
    s' := System(after.live, after.buffer, s.policyQueue + Keys(after.raised), s.namespaceQueue - {key});
  }

  /** A queued policy can be handled. */
  lemma PolicyStepPossible(fixed: Fixed, s: System, key: string) returns (move: Move, s': System)
    requires key in s.policyQueue
    ensures move.PolicyMove? && move.key == key && StepBy(fixed, InSync(fixed, s.live), s, move, s') && !move.err
  {
    var env, after := InSync(fixed, s.live), Start(s);
    var split := SplitKey(key);
    if split.Some? {
      after := Called(after);
      var ns := split.value.namespace;
      if ns in fixed.namespaces {
        var setting := NetworkSetting(fixed.defaults, fixed.namespaces[ns]);
        var synced := SyncPolicy(env, after, ns, split.value.name, setting).world;
        after := DeletionPossible(env, synced, ns, Split(setting.value, DELIMITER));
      }
    }
    move := PolicyMove(key, after, false);
    s' := System(after.live, after.buffer, s.policyQueue - {key} + Keys(after.raised), s.namespaceQueue);
  }

  /** While a key is queued a handler step is possible. */
  lemma NeverStuck(fixed: Fixed, s: System)
    requires !Idle(s)
    ensures exists s' :: Step(fixed, s, s')
  {
    if s.namespaceQueue != {} {
      var key :| key in s.namespaceQueue;
      var _, s' := NamespaceStepPossible(fixed, s, key);
      assert Step(fixed, s, s');
    } else {
      var key :| key in s.policyQueue;
      var _, s' := PolicyStepPossible(fixed, s, key);
      assert Step(fixed, s, s');
    }
  }

  // ----------------------------------------------------------------- arbitrary runs

  /** The controller with everything around it that may change at any time. */
  datatype Machine = Machine(
    defaults: Defaults, templates: map<string, Spec>, namespaces: map<string, Namespace>, live: Store, buffer: Buffer)

  /** A configuration update, a change by anyone else, or a handler run with any caches and any failures. */
  datatype Event =
    | ConfigUpdate(config: KarydiaConfig)
    | Outside
    | NamespaceRun(env: Env, key: string, after: World, err: bool)
    | PolicyRun(env: Env, key: string, after: World, err: bool)

  ghost predicate Happens(m: Machine, event: Event, m': Machine) {
    match event
    case ConfigUpdate(config) =>
      m' == m.(defaults := Defaults(config.spec.enforcement, config.spec.networkPolicies, m.defaults.excludes))
    case Outside => m'.defaults == m.defaults && m'.buffer == m.buffer
    case NamespaceRun(env, key, after, err) =>
      && env.templates == m.templates && env.namespaces == m.namespaces
      && NamespaceHandled(m.defaults, env, World(m.live, m.buffer, {}, 0), after, key, err)
      && m' == m.(live := after.live, buffer := after.buffer)
    case PolicyRun(env, key, after, err) =>
      && env.templates == m.templates && env.namespaces == m.namespaces
      && PolicyHandled(m.defaults, env, World(m.live, m.buffer, {}, 0), after, key, err)
      && m' == m.(live := after.live, buffer := after.buffer)
  }

  ghost predicate IsRun(run: seq<Machine>, events: seq<Event>) {
    |run| == |events| + 1 && forall i :: 0 <= i < |events| ==> Happens(run[i], events[i], run[i + 1])
  }

  lemma EventKeepsBuffer(m: Machine, event: Event, m': Machine)
    requires BufferOk(m.buffer) && Happens(m, event, m')
    ensures BufferOk(m'.buffer) && Grows(m.buffer, m'.buffer)
    ensures forall n :: n in m'.buffer && n !in m.buffer ==> n in m.templates && m'.buffer[n].spec == m.templates[n]
  {
    match event {
      case ConfigUpdate(_) =>
      case Outside =>
      case NamespaceRun(env, key, after, err) =>
        NamespaceHandlerIsSafe(m.defaults, env, World(m.live, m.buffer, {}, 0), after, key, err);
      case PolicyRun(env, key, after, err) =>
        PolicyHandlerIsSafe(m.defaults, env, World(m.live, m.buffer, {}, 0), after, key, err);
    }
  }

  /**
   Over every run the buffer only grows, no entry ever changes, and every entry is a bare
   template of its key's name.
   */
  lemma {:induction false} BufferIsForever(run: seq<Machine>, events: seq<Event>, i: nat, j: nat)
    requires IsRun(run, events) && i <= j < |run|
    requires BufferOk(run[0].buffer)
    ensures BufferOk(run[i].buffer) && BufferOk(run[j].buffer) && Grows(run[i].buffer, run[j].buffer)
    decreases j
  {
    if j > 0 {
      if i == j {
        BufferIsForever(run, events, j - 1, j - 1);
      } else {
        BufferIsForever(run, events, i, j - 1);
      }
      assert Happens(run[j - 1], events[j - 1], run[j]);
      EventKeepsBuffer(run[j - 1], events[j - 1], run[j]);
    }
  }

  /** Where entries come from: one that was loaded has the spec its resource had when that happened, and keeps it. */
  lemma {:induction false} BufferComesFromTemplates(run: seq<Machine>, events: seq<Event>, j: nat, n: string)
    requires IsRun(run, events) && j < |run| && BufferOk(run[0].buffer)
    requires n in run[j].buffer && n !in run[0].buffer
    ensures exists i :: 0 <= i < j && n in run[i].templates && run[j].buffer[n].spec == run[i].templates[n]
  {
    BufferIsForever(run, events, j - 1, j - 1);
    assert Happens(run[j - 1], events[j - 1], run[j]);
    EventKeepsBuffer(run[j - 1], events[j - 1], run[j]);
    if n in run[j - 1].buffer {
      BufferComesFromTemplates(run, events, j - 1, n);
    }
  }

  /**
   The desired policies are the same in all namespaces, whatever their annotations, exactly
   when enforcement is on.
   */
  lemma EnforcementFixesPolicies(defaults: Defaults)
    ensures defaults.enforcement <==>
              forall first: Namespace, second: Namespace :: Expected(defaults, first) == Expected(defaults, second)
  {
    if !defaults.enforcement {
      var plain := Namespace("", map[]);
      var other := plain.(annotations := map[NETWORK_POLICY := defaults.names + "x"]);
      JoinSplit(defaults.names, DELIMITER);
      JoinSplit(defaults.names + "x", DELIMITER);
      assert Expected(defaults, plain) != Expected(defaults, other);
    }
  }
}
