/**
 Where runs of the network-policy controller end: which states lead to convergence of
 every namespace, also while templates are still loaded, others change policies and
 deletions fail, and which states need not.
 */
module NetworkPolicyHealing {
  import opened Results
  import opened Text
  import opened Resources
  import opened ObjectKeys
  import opened NetworkPolicies
  import opened NetworkPolicyLaws
  import opened NetworkPolicyConvergence
  import opened NetworkPolicyRuns

  // ------------------------------------------------------------------ what is watched

  function NamesOf(fixed: Fixed, ns: string): seq<string>
    requires ns in fixed.namespaces
  {
    Expected(fixed.defaults, fixed.namespaces[ns])
  }

  function SourceOf(fixed: Fixed, ns: string): string
    requires ns in fixed.namespaces
  {
    NetworkSetting(fixed.defaults, fixed.namespaces[ns]).src
  }

  /** Every name that the namespace expects and that can be loaded is buffered. */
  predicate Loaded(fixed: Fixed, buffer: Buffer, ns: string)
    requires ns in fixed.namespaces
  {
    forall n :: n in NamesOf(fixed, ns) && n in fixed.templates ==> n in buffer
  }

  /** Every expected name that can be had is live with the right spec, and no other buffered name is live. */
  predicate ConvergedAt(fixed: Fixed, s: System, ns: string)
    requires ns in fixed.namespaces
  {
    Loaded(fixed, s.buffer, ns) && Converged(s.live, s.buffer, ns, NamesOf(fixed, ns))
  }

  predicate AllConverged(fixed: Fixed, s: System) {
    forall ns :: ns in fixed.namespaces && Handled(fixed, ns) ==> ConvergedAt(fixed, s, ns)
  }

  /** Convergence of a namespace, for one buffered name. */
  predicate NameConverged(live: Store, buffer: Buffer, ns: string, names: seq<string>, n: string)
    requires n in buffer
  {
    if n in names then Key(ns, n) in live && live[Key(ns, n)].spec.wire == buffer[n].spec.wire else Key(ns, n) !in live
  }

  /** The name is converged, or the policy's key is queued and nothing keeps its handler from acting on it. */
  predicate NameWatched(fixed: Fixed, s: System, ns: string, n: string)
    requires ns in fixed.namespaces && n in s.buffer
  {
    var names := NamesOf(fixed, ns);
    || NameConverged(s.live, s.buffer, ns, names, n)
    || (KeyString(Key(ns, n)) in s.policyQueue && (n in names ==> AllResolvable(fixed.templates, s.buffer, names)))
  }

  /** The namespace is queued, or it has nothing to load and each buffered name is watched. */
  predicate NamespaceWatched(fixed: Fixed, s: System, ns: string)
    requires ns in fixed.namespaces
  {
    ns in s.namespaceQueue
    || (Loaded(fixed, s.buffer, ns) && forall n :: n in s.buffer ==> NameWatched(fixed, s, ns, n))
  }

  predicate Watched(fixed: Fixed, s: System) {
    forall ns :: ns in fixed.namespaces && Handled(fixed, ns) ==> NamespaceWatched(fixed, s, ns)
  }

  /** Object names hold no slash, as the API server requires of them. */
  predicate ProperNames(fixed: Fixed, buffer: Buffer) {
    && (forall ns :: ns in fixed.namespaces ==> ns != "" && '/' !in ns)
    && (forall n :: n in buffer ==> '/' !in n)
    && (forall n :: n in fixed.templates ==> '/' !in n)
  }

  // --------------------------------------------------------------------------- strays

  /**
   The names that handling the namespace brings into the buffer: in an excluded one only the
   policy handler runs, and it stops at a name it cannot resolve.
   */
  function Loading(fixed: Fixed, buffer: Buffer, ns: string): seq<string>
    requires ns in fixed.namespaces
  {
    if Handled(fixed, ns) then NamesOf(fixed, ns) else Reached(fixed.templates, buffer, NamesOf(fixed, ns))
  }

  /**
   A live policy whose name its own namespace does not expect and another one is about to
   bring into the buffer, by which the policy becomes one of the controller's.
   */
  predicate Stray(fixed: Fixed, s: System, k: Key, other: string) {
    && k in s.live && Handled(fixed, k.namespace) && k.name !in NamesOf(fixed, k.namespace)
    && k.name in fixed.templates && k.name !in s.buffer
    && other in fixed.namespaces && k.name in Loading(fixed, s.buffer, other)
  }

  /** A handler may come to run on the namespace: it is not excluded, or one of its policies is queued. */
  predicate Active(fixed: Fixed, s: System, ns: string) {
    Handled(fixed, ns) || exists key :: key in s.policyQueue && Area(key) == Some(ns)
  }

  /** The namespace of the policy that a key stands for. */
  function Area(key: string): Option<string> {
    var k :- SplitKey(key);
    Some(k.namespace)
  }

  predicate NoStrays(fixed: Fixed, s: System) {
    forall k, other :: k in s.live && other in fixed.namespaces && Active(fixed, s, other) ==>
      !Stray(fixed, s, k, other)
  }

  /**
   Convergence is in sight: nothing that is not converged is lost sight of, and no policy is
   about to become a stray.
   */
  predicate Ready(fixed: Fixed, s: System) {
    BufferOk(s.buffer) && ProperNames(fixed, s.buffer) && Watched(fixed, s) && NoStrays(fixed, s)
  }

  // ---------------------------------------------------------------- one handler run

  /** The listers may be old and calls may fail, but templates and namespaces are as they are. */
  predicate Sees(fixed: Fixed, env: Env) {
    env.templates == fixed.templates && env.namespaces == fixed.namespaces && env.namespacesLister == fixed.namespaces
  }

  /** The namespace a handler run works on. */
  function Place(move: Move): Option<string> {
    match move
    case NamespaceMove(key, _, _) => Some(key)
    case PolicyMove(key, _, _) => Area(key)
  }

  /**
   The run does nothing: its key is not one of a namespace it knows or may touch, or looking
   the namespace up fails.
   */
  predicate Passes(fixed: Fixed, env: Env, s: System, move: Move) {
    && move.after.live == s.live && move.after.buffer == s.buffer && move.after.raised == {}
    && match move
       case NamespaceMove(key, _, _) => !Handled(fixed, key)
       case PolicyMove(key, _, _) => Area(key).None? || Area(key).value !in fixed.namespaces || Fails(env, Start(s))
  }

  /**
   Whatever failed in the run, its key's work is done or the key is requeued: a namespace is
   converged, and a policy's name is.
   */
  predicate Mends(fixed: Fixed, move: Move, s': System) {
    || move.err
    || match move
       case NamespaceMove(key, _, _) => Handled(fixed, key) ==> ConvergedAt(fixed, s', key)
       case PolicyMove(key, _, _) =>
         match SplitKey(key)
         case None => true
         case Some(k) =>
           Handled(fixed, k.namespace) && k.name in s'.buffer ==>
             NameConverged(s'.live, s'.buffer, k.namespace, NamesOf(fixed, k.namespace), k.name)
  }

  /** The run works on the namespace, within what is safe. */
  predicate WorksOn(fixed: Fixed, s: System, move: Move, ns: string) {
    && ns in fixed.namespaces && Place(move) == Some(ns) && (move.NamespaceMove? ==> Handled(fixed, ns))
    && Safe(InSync(fixed, s.live), Start(s), move.after, ns, NamesOf(fixed, ns), SourceOf(fixed, ns))
    && LoadsOnlyExpected(InSync(fixed, s.live), Start(s), move.after, Loading(fixed, s.buffer, ns))
  }

  /** Any run, whatever fails in it. */
  lemma RunIsSafe(fixed: Fixed, env: Env, s: System, move: Move, s': System)
    requires Sees(fixed, env) && BufferOk(s.buffer) && StepBy(fixed, env, s, move, s')
    ensures Passes(fixed, env, s, move) || (Place(move).Some? && WorksOn(fixed, s, move, Place(move).value))
    ensures Place(move).Some? && WorksOn(fixed, s, move, Place(move).value) ==> Active(fixed, s, Place(move).value)
  {
    match move {
      case NamespaceMove(key, after, err) =>
        NamespaceHandlerIsSafe(fixed.defaults, env, Start(s), after, key, err);
      case PolicyMove(key, after, err) =>
        PolicyHandlerIsSafe(fixed.defaults, env, Start(s), after, key, err);
    }
  }

  lemma StepKeepsNames(fixed: Fixed, s: System, s': System)
    requires BufferOk(s.buffer) && ProperNames(fixed, s.buffer) && Step(fixed, s, s')
    ensures BufferOk(s'.buffer) && ProperNames(fixed, s'.buffer) && Grows(s.buffer, s'.buffer)
  {
    var move :| StepBy(fixed, InSync(fixed, s.live), s, move, s');
    RunIsSafe(fixed, InSync(fixed, s.live), s, move, s');
  }

  /** How the queues change at most: keys of the place's policies come, and only the run's own key goes. */
  lemma QueuesAfter(fixed: Fixed, env: Env, s: System, move: Move, s': System, ns: string)
    requires StepBy(fixed, env, s, move, s') && WorksOn(fixed, s, move, ns)
    requires ns != "" && '/' !in ns
    ensures forall key :: key in s'.policyQueue && key !in s.policyQueue ==> Area(key) == Some(ns) || Area(key) == None
    ensures forall key :: key in s.policyQueue && Area(key) != Some(ns) ==> key in s'.policyQueue
    ensures s'.namespaceQueue <= s.namespaceQueue
    ensures forall other :: other in s.namespaceQueue && other != ns ==> other in s'.namespaceQueue
  {
    forall k: Key | k in move.after.raised
      ensures Area(KeyString(k)) == Some(ns) || Area(KeyString(k)) == None
    {
      KeyNamespace(k);
    }
  }

  /** Templates that exist do not change which names are reached when they are loaded. */
  lemma {:induction false} ReachedIsFixed(templates: map<string, Spec>, buffer: Buffer, buffer': Buffer,
                                          names: seq<string>)
    requires Grows(buffer, buffer') && forall n :: n in buffer' ==> n in buffer || n in templates
    ensures Reached(templates, buffer', names) == Reached(templates, buffer, names)
    ensures AllResolvable(templates, buffer', names) <==> AllResolvable(templates, buffer, names)
    decreases |names|
  {
    if names != [] {
      var front, name := names[..|names| - 1], names[|names| - 1];
      assert names == front + [name];
      ReachedIsFixed(templates, buffer, buffer', front);
      ReachedSnoc(templates, buffer, front, name);
      ReachedSnoc(templates, buffer', front, name);
    }
  }

  /** A safe run makes no policy a stray and takes no template out of the buffer. */
  lemma RunKeepsNoStrays(fixed: Fixed, env: Env, s: System, move: Move, s': System, ns: string)
    requires Ready(fixed, s) && StepBy(fixed, env, s, move, s') && WorksOn(fixed, s, move, ns) && Active(fixed, s, ns)
    ensures NoStrays(fixed, s')
  {
    QueuesAfter(fixed, env, s, move, s', ns);
    forall k, other | k in s'.live && other in fixed.namespaces && Active(fixed, s', other)
      ensures !Stray(fixed, s', k, other)
    {
      assert Active(fixed, s, other);
      ReachedIsFixed(fixed.templates, s.buffer, s'.buffer, NamesOf(fixed, other));
      assert k in s.live ==> !Stray(fixed, s, k, other);
    }
  }

  /** A safe run loses sight of nothing in the namespaces it does not work on, also when it loads templates. */
  lemma RunWatchesOthers(fixed: Fixed, env: Env, s: System, move: Move, s': System, ns: string, other: string)
    requires Ready(fixed, s) && StepBy(fixed, env, s, move, s') && WorksOn(fixed, s, move, ns) && Active(fixed, s, ns)
    requires other in fixed.namespaces && Handled(fixed, other) && other != ns
    ensures NamespaceWatched(fixed, s', other)
  {
    QueuesAfter(fixed, env, s, move, s', ns);
    forall n | other !in s.namespaceQueue && n in s'.buffer
      ensures NameWatched(fixed, s', other, n)
    {
      var k := Key(other, n);
      assert k in s'.live <==> k in s.live;
      if n in s.buffer {
        assert NameWatched(fixed, s, other, n);
        KeyRoundTrip(k);
      } else {
        assert k in s.live ==> Stray(fixed, s, k, ns);
      }
    }
  }

  /** A safe run takes no name of its own namespace out of convergence. */
  lemma RunKeepsName(fixed: Fixed, s: System, move: Move, s': System, ns: string, n: string)
    requires WorksOn(fixed, s, move, ns) && s'.live == move.after.live && s'.buffer == move.after.buffer
    requires n in s.buffer && NameConverged(s.live, s.buffer, ns, NamesOf(fixed, ns), n)
    ensures NameConverged(s'.live, s'.buffer, ns, NamesOf(fixed, ns), n)
  {
    var k, names := Key(ns, n), NamesOf(fixed, ns);
    assert k in s'.live ==> k in s.live || n in names;
  }

  /** A namespace handler run without failures leaves its own namespace converged. */
  lemma NamespaceRunConverges(fixed: Fixed, s: System, move: Move, s': System, ns: string)
    requires BufferOk(s.buffer) && StepBy(fixed, InSync(fixed, s.live), s, move, s')
    requires move.NamespaceMove? && move.key == ns && Handled(fixed, ns)
    ensures ConvergedAt(fixed, s', ns)
  {
    NamespaceHandlerConverges(fixed.defaults, InSync(fixed, s.live), Start(s), move.after, ns, move.err);
  }

  lemma ConvergedIsWatched(fixed: Fixed, s': System, ns: string)
    requires ns in fixed.namespaces && ConvergedAt(fixed, s', ns)
    ensures NamespaceWatched(fixed, s', ns)
  {
    forall n | n in s'.buffer
      ensures NameWatched(fixed, s', ns, n)
    {
    }
  }

  /** A policy handler run without failures mends the name its key stands for. */
  lemma PolicyRunMends(fixed: Fixed, s: System, move: Move, s': System, ns: string, n: string)
    requires Ready(fixed, s) && StepBy(fixed, InSync(fixed, s.live), s, move, s')
    requires move.PolicyMove? && SplitKey(move.key) == Some(Key(ns, n)) && ns in fixed.namespaces
    requires n in s.buffer && (n in NamesOf(fixed, ns) ==> AllResolvable(fixed.templates, s.buffer, NamesOf(fixed, ns)))
    ensures n in s'.buffer && NameConverged(s'.live, s'.buffer, ns, NamesOf(fixed, ns), n)
  {
    var k, names := Key(ns, n), NamesOf(fixed, ns);
    var target := Target(fixed.templates, s.buffer, ns, names, n);
    PolicyHandlerReconciles(fixed.defaults, InSync(fixed, s.live), Start(s), move.after, move.key, k, move.err);
    assert k in target ==> Managed(s'.buffer, ns, names, k);
    assert n !in names ==> Surplus(s'.buffer, ns, names, k);
  }

  /** A policy handler run, failing or not, loses sight of nothing in its own namespace. */
  lemma PolicyRunWatchesOwn(fixed: Fixed, env: Env, s: System, move: Move, s': System, ns: string)
    requires Ready(fixed, s) && StepBy(fixed, env, s, move, s') && WorksOn(fixed, s, move, ns)
    requires move.PolicyMove? && Handled(fixed, ns)
    requires env == InSync(fixed, s.live) || Mends(fixed, move, s')
    ensures NamespaceWatched(fixed, s', ns)
  {
    assert NamespaceWatched(fixed, s, ns);
    forall n | ns !in s.namespaceQueue && n in s'.buffer
      ensures NameWatched(fixed, s', ns, n)
    {
      assert n in s.buffer;
      assert NameWatched(fixed, s, ns, n);
      KeyRoundTrip(Key(ns, n));
      if NameConverged(s.live, s.buffer, ns, NamesOf(fixed, ns), n) {
        RunKeepsName(fixed, s, move, s', ns, n);
      } else if !move.err && move.key == KeyString(Key(ns, n)) && env == InSync(fixed, s.live) {
        PolicyRunMends(fixed, s, move, s', ns, n);
      }
    }
  }

  lemma PassingKeepsReady(fixed: Fixed, env: Env, s: System, move: Move, s': System)
    requires Ready(fixed, s) && StepBy(fixed, env, s, move, s') && Passes(fixed, env, s, move)
    requires env == InSync(fixed, s.live) || Mends(fixed, move, s')
    ensures Ready(fixed, s')
  {
    forall ns | ns in fixed.namespaces && Handled(fixed, ns)
      ensures NamespaceWatched(fixed, s', ns)
    {
      assert NamespaceWatched(fixed, s, ns);
      forall n | ns !in s.namespaceQueue && n in s.buffer
        ensures NameWatched(fixed, s', ns, n)
      {
        assert NameWatched(fixed, s, ns, n);
        KeyRoundTrip(Key(ns, n));
      }
    }
    forall k, other | k in s'.live && other in fixed.namespaces && Active(fixed, s', other)
      ensures !Stray(fixed, s', k, other)
    {
      assert Active(fixed, s, other);
      assert !Stray(fixed, s, k, other);
    }
  }

  /** No handler run that meets no failure, or is requeued, or does its work all the same, loses sight of anything. */
  lemma RunKeepsReady(fixed: Fixed, env: Env, s: System, move: Move, s': System)
    requires Ready(fixed, s) && Sees(fixed, env) && StepBy(fixed, env, s, move, s')
    requires env == InSync(fixed, s.live) || Mends(fixed, move, s')
    ensures Ready(fixed, s')
  {
    RunIsSafe(fixed, env, s, move, s');
    if Passes(fixed, env, s, move) {
      PassingKeepsReady(fixed, env, s, move, s');
    } else {
      var ns := Place(move).value;
      RunKeepsNoStrays(fixed, env, s, move, s', ns);
      forall other | other in fixed.namespaces && Handled(fixed, other)
        ensures NamespaceWatched(fixed, s', other)
      {
        if other != ns {
          RunWatchesOthers(fixed, env, s, move, s', ns, other);
        } else if move.PolicyMove? {
          PolicyRunWatchesOwn(fixed, env, s, move, s', ns);
        } else if !move.err {
          if env == InSync(fixed, s.live) {
            NamespaceRunConverges(fixed, s, move, s', ns);
          }
          ConvergedIsWatched(fixed, s', ns);
        }
      }
    }
  }

  lemma StepKeepsReady(fixed: Fixed, s: System, s': System)
    requires Ready(fixed, s) && Step(fixed, s, s')
    ensures Ready(fixed, s')
  {
    var move :| StepBy(fixed, InSync(fixed, s.live), s, move, s');
    RunKeepsReady(fixed, InSync(fixed, s.live), s, move, s');
  }

  // ------------------------------------------------- failing runs and outside changes

  /**
   A handler run with any failures and any old view of the policies that ends with an error,
   and is requeued, or has done its work all the same.
   */
  ghost predicate FailedStep(fixed: Fixed, s: System, s': System) {
    exists env: Env, move: Move :: Sees(fixed, env) && StepBy(fixed, env, s, move, s') && Mends(fixed, move, s')
  }

  lemma FailureKeepsReady(fixed: Fixed, s: System, s': System)
    requires Ready(fixed, s) && FailedStep(fixed, s, s')
    ensures Ready(fixed, s')
  {
    var env: Env, move: Move :| Sees(fixed, env) && StepBy(fixed, env, s, move, s') && Mends(fixed, move, s');
    RunKeepsReady(fixed, env, s, move, s');
  }

  /** Someone else updates or deletes a live policy, and the event queues the policy's key. */
  predicate Tampered(s: System, k: Key, s': System) {
    && k.namespace != "" && '/' !in k.namespace && '/' !in k.name
    && OutsideChange(s.live, s'.live, k)
    && s' == s.(live := s'.live, policyQueue := s.policyQueue + {KeyString(k)})
  }

  /**
   The handler that the change calls for can act: it resolves what it has to resolve for an
   expected policy that is not as it should be, and in an excluded namespace, which only such
   events make it visit, it loads nothing that makes strays.
   */
  predicate Mendable(fixed: Fixed, s: System, k: Key, s': System) {
    k.namespace in fixed.namespaces ==>
      if Handled(fixed, k.namespace) then
        var names := NamesOf(fixed, k.namespace);
        k.name in names && k.name in s.buffer && !NameConverged(s'.live, s.buffer, k.namespace, names, k.name) ==>
          AllResolvable(fixed.templates, s.buffer, names)
      else forall stray :: stray in s.live ==> !Stray(fixed, s, stray, k.namespace)
  }

  /** An outside change that the controller is able to mend. */
  ghost predicate MendablyTampered(fixed: Fixed, s: System, s': System) {
    exists k :: Tampered(s, k, s') && Mendable(fixed, s, k, s')
  }

  lemma TamperingKeepsReady(fixed: Fixed, s: System, k: Key, s': System)
    requires Ready(fixed, s) && Tampered(s, k, s') && Mendable(fixed, s, k, s')
    ensures Ready(fixed, s')
  {
    forall ns | ns in fixed.namespaces && Handled(fixed, ns)
      ensures NamespaceWatched(fixed, s', ns)
    {
      assert NamespaceWatched(fixed, s, ns);
      forall n | ns !in s.namespaceQueue && n in s.buffer
        ensures NameWatched(fixed, s', ns, n)
      {
        assert NameWatched(fixed, s, ns, n);
        assert k != Key(ns, n) ==> Agree(s.live, s'.live, Key(ns, n));
      }
    }
    TamperingKeepsNoStrays(fixed, s, k, s');
  }

  lemma TamperingKeepsNoStrays(fixed: Fixed, s: System, k: Key, s': System)
    requires Ready(fixed, s) && Tampered(s, k, s') && Mendable(fixed, s, k, s')
    ensures NoStrays(fixed, s')
  {
    forall stray, other | stray in s'.live && other in fixed.namespaces && Active(fixed, s', other)
      ensures !Stray(fixed, s', stray, other)
    {
      assert stray in s.live;
      assert Stray(fixed, s', stray, other) ==> Stray(fixed, s, stray, other);
      if Active(fixed, s, other) {
        assert !Stray(fixed, s, stray, other);
      } else {
        KeyNamespace(k);
        assert k.namespace == other && !Handled(fixed, other);
      }
    }
  }

  // ------------------------------------------------------------------- infinite runs

  /** A handler run without failures or with failures that are made up for, or an outside change that can be mended. */
  ghost predicate MoveAt(fixed: Fixed, run: nat -> System, n: nat) {
    || StepAt(fixed, run, n)
    || FailedStep(fixed, run(n), run(n + 1))
    || MendablyTampered(fixed, run(n), run(n + 1))
  }

  lemma {:induction false} MovesKeepReady(fixed: Fixed, run: nat -> System, n: nat)
    requires Ready(fixed, run(0))
    requires forall i :: 0 <= i < n ==> MoveAt(fixed, run, i)
    ensures Ready(fixed, run(n))
  {
    if n > 0 {
      MovesKeepReady(fixed, run, n - 1);
      assert MoveAt(fixed, run, n - 1);
      if StepAt(fixed, run, n - 1) {
        StepKeepsReady(fixed, run(n - 1), run(n));
      } else if FailedStep(fixed, run(n - 1), run(n)) {
        FailureKeepsReady(fixed, run(n - 1), run(n));
      } else {
        var k :| Tampered(run(n - 1), k, run(n)) && Mendable(fixed, run(n - 1), k, run(n));
        TamperingKeepsReady(fixed, run(n - 1), k, run(n));
      }
    }
  }

  lemma IdleIsConverged(fixed: Fixed, s: System)
    requires Watched(fixed, s) && Idle(s)
    ensures AllConverged(fixed, s)
  {
    forall ns | ns in fixed.namespaces && Handled(fixed, ns)
      ensures ConvergedAt(fixed, s, ns)
    {
      assert NamespaceWatched(fixed, s, ns);
      assert forall n :: n in s.buffer ==> NameWatched(fixed, s, ns, n);
    }
  }

  /** A controller that is left alone, and keeps handling queued keys, ends idle with every namespace converged. */
  lemma {:induction false} EveryRunConverges(fixed: Fixed, run: nat -> System, from: nat)
    requires Ready(fixed, run(from))
    requires forall n :: n >= from ==> Idle(run(n)) || StepAt(fixed, run, n)
    ensures exists stop :: stop >= from && Idle(run(stop)) && AllConverged(fixed, run(stop))
    decreases Unloaded(fixed, run(from)), |Deviations(fixed, run(from).live, run(from).buffer)|, Queued(run(from))
  {
    if Idle(run(from)) {
      IdleIsConverged(fixed, run(from));
    } else {
      StepAtDecreases(fixed, run, from);
      StepKeepsReady(fixed, run(from), run(from + 1));
      EveryRunConverges(fixed, run, from + 1);
    }
  }

  /**
   Self-healing: however others update and delete policies and deletions fail while the
   controller works and loads templates, once that stops, the controller comes to rest with
   every handled namespace converged.
   */
  lemma SelfHealing(fixed: Fixed, run: nat -> System, from: nat)
    requires Ready(fixed, run(0))
    requires forall n :: 0 <= n < from ==> MoveAt(fixed, run, n)
    requires forall n :: n >= from ==> Idle(run(n)) || StepAt(fixed, run, n)
    ensures exists stop :: stop >= from && Idle(run(stop)) && AllConverged(fixed, run(stop))
  {
    MovesKeepReady(fixed, run, from);
    EveryRunConverges(fixed, run, from);
  }

  // ------------------------------------------------------------------ from start-up on

  /** The informer's first events queue all namespaces. */
  predicate Starts(fixed: Fixed, s: System) {
    && BufferOk(s.buffer) && ProperNames(fixed, s.buffer)
    && s.policyQueue == {} && s.namespaceQueue == fixed.namespaces.Keys
  }

  /**
   At start-up a controller is ready exactly when no live policy is about to become a stray.
   With enforcement none is, and every outside change is mendable, as all expected names have
   templates or start-up ends.
   */
  lemma StartsReady(fixed: Fixed, s: System)
    requires Starts(fixed, s)
    ensures Ready(fixed, s) <==> NoStrays(fixed, s)
    ensures fixed.defaults.enforcement ==> Ready(fixed, s)
    ensures fixed.defaults.enforcement
            && AllResolvable(fixed.templates, s.buffer, Split(fixed.defaults.names, DELIMITER)) ==>
              forall k, s' :: Mendable(fixed, s, k, s')
  {
    if fixed.defaults.enforcement {
      forall k, other | k in s.live && other in fixed.namespaces
        ensures !Stray(fixed, s, k, other)
      {
        EnforcementFixesPolicies(fixed.defaults);
      }
    }
  }

  /** A finite run of handler steps without failures. */
  ghost predicate Path(fixed: Fixed, s: System, via: seq<System>, s': System)
    decreases |via|
  {
    if via == [] then s == s' else Step(fixed, s, via[0]) && Path(fixed, via[0], via[1..], s')
  }

  ghost predicate Reaches(fixed: Fixed, s: System, s': System) {
    exists via :: Path(fixed, s, via, s')
  }

  lemma ReachesSelf(fixed: Fixed, s: System)
    ensures Reaches(fixed, s, s)
  {
    assert Path(fixed, s, [], s);
  }

  lemma StepThenReaches(fixed: Fixed, s: System, next: System, s': System)
    requires Step(fixed, s, next) && Reaches(fixed, next, s')
    ensures Reaches(fixed, s, s')
  {
    var via :| Path(fixed, next, via, s');
    assert ([next] + via)[1..] == via;
    assert Path(fixed, s, [next] + via, s');
  }

  lemma {:induction false} PathKeepsReady(fixed: Fixed, s: System, via: seq<System>, s': System)
    requires Ready(fixed, s) && Path(fixed, s, via, s')
    ensures Ready(fixed, s')
    decreases |via|
  {
    if via != [] {
      StepKeepsReady(fixed, s, via[0]);
      PathKeepsReady(fixed, via[0], via[1..], s');
    }
  }

  /** Wherever runs from the state come to rest, every handled namespace is converged. */
  ghost predicate AlwaysConverges(fixed: Fixed, s: System) {
    forall s' :: Reaches(fixed, s, s') && Idle(s') ==> AllConverged(fixed, s')
  }

  /**
   Exactly: from start-up on the controller always converges if and only if no live policy
   bears a name that its namespace does not expect, another handled namespace does, and
   that is still to be loaded. Every run comes to rest in any case.
   */
  lemma ConvergesExactly(fixed: Fixed, s: System)
    requires Starts(fixed, s)
    ensures AlwaysConverges(fixed, s) <==> NoStrays(fixed, s)
  {
    if NoStrays(fixed, s) {
      StartsReady(fixed, s);
      forall s' | Reaches(fixed, s, s') && Idle(s')
        ensures AllConverged(fixed, s')
      {
        var via :| Path(fixed, s, via, s');
        PathKeepsReady(fixed, s, via, s');
        IdleIsConverged(fixed, s');
      }
    } else {
      var k, other :| k in s.live && other in fixed.namespaces && Active(fixed, s, other) && Stray(fixed, s, k, other);
      var s' := StrayRemains(fixed, s, k, other);
      assert !ConvergedAt(fixed, s', k.namespace);
    }
  }

  /** A start from which the controller does not always converge: two namespaces and one template. */
  lemma ConvergenceCanFail(spec: Spec)
    ensures exists fixed, s :: Starts(fixed, s) && !AlwaysConverges(fixed, s)
  {
    var namespaces := map[
      "red" := Namespace("red", map[NETWORK_POLICY := "a"]),
      "blue" := Namespace("blue", map[NETWORK_POLICY := "b"])];
    var fixed := Fixed(Defaults(false, "", []), map["b" := spec], namespaces);
    var stray := Key("red", "b");
    var s := System(map[stray := Policy("b", "red", map[], spec)], map[], {}, namespaces.Keys);
    SplitOne("a", DELIMITER);
    SplitOne("b", DELIMITER);
    assert NamesOf(fixed, "red") == ["a"] && NamesOf(fixed, "blue") == ["b"];
    assert Stray(fixed, s, stray, "blue");
    assert Active(fixed, s, "blue");
    assert Starts(fixed, s) && !NoStrays(fixed, s);
    ConvergesExactly(fixed, s);
  }

  // --------------------------------------------------- a run that ends with a stray

  /** The stray's namespace has been handled, the other one has not, and only the former's policies are queued. */
  predicate Endangered(fixed: Fixed, s: System, k: Key, other: string) {
    && BufferOk(s.buffer) && ProperNames(fixed, s.buffer)
    && Stray(fixed, s, k, other) && Handled(fixed, other)
    && k.namespace !in s.namespaceQueue && other in s.namespaceQueue
    && forall key :: key in s.policyQueue ==> Area(key) == Some(k.namespace) || Area(key) == None
  }

  /** The namespace of the live policy is not visited any more, but the other one is, unless it was. */
  predicate Forgotten(fixed: Fixed, s: System, k: Key, other: string) {
    && BufferOk(s.buffer) && ProperNames(fixed, s.buffer)
    && k in s.live && Handled(fixed, k.namespace) && k.name !in NamesOf(fixed, k.namespace)
    && k.namespace !in s.namespaceQueue && (forall key :: key in s.policyQueue ==> Area(key) != Some(k.namespace))
    && Handled(fixed, other) && k.name in NamesOf(fixed, other) && k.name in fixed.templates
    && (other in s.namespaceQueue || k.name in s.buffer)
  }

  lemma {:induction false} StrayRemains(fixed: Fixed, s: System, k: Key, other: string) returns (s': System)
    requires Starts(fixed, s) && Stray(fixed, s, k, other) && Handled(fixed, other)
    ensures Reaches(fixed, s, s') && Idle(s') && Forgotten(fixed, s', k, other)
  {
    var move, next := NamespaceStepPossible(fixed, s, k.namespace);
    RunIsSafe(fixed, InSync(fixed, s.live), s, move, next);
    QueuesAfter(fixed, InSync(fixed, s.live), s, move, next, k.namespace);
    assert Step(fixed, s, next);
    s' := RestsAfterDraining(fixed, next, k, other);
    StepThenReaches(fixed, s, next, s');
  }

  /** First the policies of the stray's own namespace are handled. */
  lemma {:induction false} RestsAfterDraining(fixed: Fixed, s: System, k: Key, other: string) returns (s': System)
    requires Endangered(fixed, s, k, other)
    ensures Reaches(fixed, s, s') && Idle(s') && Forgotten(fixed, s', k, other)
    decreases Unloaded(fixed, s), |Deviations(fixed, s.live, s.buffer)|, Queued(s)
  {
    if s.policyQueue == {} {
      s' := RestsForgotten(fixed, s, k, other);
    } else {
      var key :| key in s.policyQueue;
      var move, next := PolicyStepPossible(fixed, s, key);
      assert Step(fixed, s, next);
      StepDecreases(fixed, s, next);
      PolicyStepEndangers(fixed, s, move, next, k, other);
      s' := RestsAfterDraining(fixed, next, k, other);
      StepThenReaches(fixed, s, next, s');
    }
  }

  lemma PolicyStepEndangers(fixed: Fixed, s: System, move: Move, next: System, k: Key, other: string)
    requires Endangered(fixed, s, k, other)
    requires move.PolicyMove? && StepBy(fixed, InSync(fixed, s.live), s, move, next)
    ensures Endangered(fixed, next, k, other)
  {
    RunIsSafe(fixed, InSync(fixed, s.live), s, move, next);
    if !Passes(fixed, InSync(fixed, s.live), s, move) {
      QueuesAfter(fixed, InSync(fixed, s.live), s, move, next, k.namespace);
    }
  }

  /** Then all else is, and nothing ever comes back to the stray. */
  lemma {:induction false} RestsForgotten(fixed: Fixed, s: System, k: Key, other: string) returns (s': System)
    requires Forgotten(fixed, s, k, other)
    ensures Reaches(fixed, s, s') && Idle(s') && Forgotten(fixed, s', k, other)
    decreases Unloaded(fixed, s), |Deviations(fixed, s.live, s.buffer)|, Queued(s)
  {
    if Idle(s) {
      ReachesSelf(fixed, s);
      s' := s;
    } else {
      NeverStuck(fixed, s);
      var next :| Step(fixed, s, next);
      StepDecreases(fixed, s, next);
      StepForgets(fixed, s, next, k, other);
      s' := RestsForgotten(fixed, next, k, other);
      StepThenReaches(fixed, s, next, s');
    }
  }

  lemma StepForgets(fixed: Fixed, s: System, next: System, k: Key, other: string)
    requires Forgotten(fixed, s, k, other) && Step(fixed, s, next)
    ensures Forgotten(fixed, next, k, other)
  {
    var move :| StepBy(fixed, InSync(fixed, s.live), s, move, next);
    RunIsSafe(fixed, InSync(fixed, s.live), s, move, next);
    if !Passes(fixed, InSync(fixed, s.live), s, move) {
      var ns := Place(move).value;
      assert ns != k.namespace;
      QueuesAfter(fixed, InSync(fixed, s.live), s, move, next, ns);
      OtherComesOrStays(fixed, s, move, next, k, other);
    }
  }

  lemma OtherComesOrStays(fixed: Fixed, s: System, move: Move, next: System, k: Key, other: string)
    requires Forgotten(fixed, s, k, other) && StepBy(fixed, InSync(fixed, s.live), s, move, next)
    requires Grows(s.buffer, next.buffer)
    ensures other in next.namespaceQueue || k.name in next.buffer
  {
    if move.NamespaceMove? && move.key == other {
      NamespaceHandlerConverges(fixed.defaults, InSync(fixed, s.live), Start(s), move.after, other, move.err);
    }
  }
}
