/**
 Which outside changes of a policy the controller makes up for, once it was at rest with
 every handled namespace converged: exactly the mendable ones.
 */
module NetworkPolicyRepair {
  import opened Results
  import opened Text
  import opened Resources
  import opened ObjectKeys
  import opened NetworkPolicies
  import opened NetworkPolicyLaws
  import opened NetworkPolicyConvergence
  import opened NetworkPolicyRuns
  import opened NetworkPolicyHealing

  predicate AtRest(fixed: Fixed, s: System) {
    Idle(s) && BufferOk(s.buffer) && ProperNames(fixed, s.buffer) && AllConverged(fixed, s)
  }

  /** A controller at rest has no strays, since every name that could make one is loaded. */
  lemma RestIsReady(fixed: Fixed, s: System)
    requires AtRest(fixed, s)
    ensures Ready(fixed, s)
  {
    forall ns | ns in fixed.namespaces && Handled(fixed, ns)
      ensures NamespaceWatched(fixed, s, ns)
    {
      ConvergedIsWatched(fixed, s, ns);
    }
    forall k, other | k in s.live && other in fixed.namespaces && Active(fixed, s, other)
      ensures !Stray(fixed, s, k, other)
    {
      assert ConvergedAt(fixed, s, other);
    }
  }

  // ----------------------------------------------------- a change that is not mended

  /** The handler gives up on a policy of a converged namespace whose names do not all resolve. */
  lemma HandlerGivesUp(fixed: Fixed, s: System, k: Key, tampered: System) returns (s': System)
    requires AtRest(fixed, s) && Tampered(s, k, tampered) && Handled(fixed, k.namespace)
    requires k.name in NamesOf(fixed, k.namespace)
    requires !AllResolvable(fixed.templates, s.buffer, NamesOf(fixed, k.namespace))
    ensures Step(fixed, tampered, s') && Idle(s') && s'.live == tampered.live && s'.buffer == s.buffer
  {
    var ns, names, src := k.namespace, NamesOf(fixed, k.namespace), SourceOf(fixed, k.namespace);
    var move, next := PolicyStepPossible(fixed, tampered, KeyString(k));
    s' := next;
    KeyRoundTrip(k);
    PolicyHandlerReconciles(fixed.defaults, InSync(fixed, tampered.live), Start(tampered), move.after, move.key, k,
                            move.err);
    assert ConvergedAt(fixed, s, ns);
    NothingNewToLoad(fixed, s.buffer, ns);
    NothingToDo(Start(tampered), move.after, ns, names, src, s.live);
    assert Step(fixed, tampered, s');
    assert Keys({}) == {};
  }

  lemma NothingNewToLoad(fixed: Fixed, buffer: Buffer, ns: string)
    requires ns in fixed.namespaces && Loaded(fixed, buffer, ns)
    ensures Resolved(fixed.templates, buffer, Reached(fixed.templates, buffer, NamesOf(fixed, ns))) == buffer
  {
    var names := NamesOf(fixed, ns);
    assert forall n :: n in Reached(fixed.templates, buffer, names) ==> n in names;
  }

  lemma NothingToDo(w: World, w': World, ns: string, names: seq<string>, src: string, before: Store)
    requires PolicyEffect(w, w', ns, names, src, {}) && w'.buffer == w.buffer && w.raised == {}
    requires Converged(before, w.buffer, ns, names) && w.live.Keys <= before.Keys
    ensures w'.live == w.live && w'.raised == {}
  {
    forall k | k in w.live
      ensures !Surplus(w.buffer, ns, names, k)
    {
      assert k == Key(k.namespace, k.name) && k in before;
    }
    assert w'.live.Keys == w.live.Keys;
  }

  lemma GivingUpEndsUnconverged(fixed: Fixed, s: System, k: Key, tampered: System)
    requires AtRest(fixed, s) && Tampered(s, k, tampered) && Handled(fixed, k.namespace)
    requires !Mendable(fixed, s, k, tampered)
    ensures !AlwaysConverges(fixed, tampered)
  {
    var s' := HandlerGivesUp(fixed, s, k, tampered);
    ReachesSelf(fixed, s');
    StepThenReaches(fixed, tampered, s', s');
    assert !ConvergedAt(fixed, s', k.namespace);
  }

  // ------------------------------------------- a change in an excluded namespace

  /**
   The policy is live against its namespace's wish, its name is buffered, and nothing is
   queued that would remove it.
   */
  predicate LeftBehind(fixed: Fixed, s: System, x: Key) {
    && x in s.live && Handled(fixed, x.namespace) && x.name in s.buffer && x.name !in NamesOf(fixed, x.namespace)
    && x.namespace !in s.namespaceQueue && (forall key :: key in s.policyQueue ==> Area(key) != Some(x.namespace))
  }

  lemma StepLeavesBehind(fixed: Fixed, s: System, next: System, x: Key)
    requires BufferOk(s.buffer) && ProperNames(fixed, s.buffer) && LeftBehind(fixed, s, x) && Step(fixed, s, next)
    ensures BufferOk(next.buffer) && ProperNames(fixed, next.buffer) && LeftBehind(fixed, next, x)
  {
    StepKeepsNames(fixed, s, next);
    var move :| StepBy(fixed, InSync(fixed, s.live), s, move, next);
    RunIsSafe(fixed, InSync(fixed, s.live), s, move, next);
    if !Passes(fixed, InSync(fixed, s.live), s, move) {
      QueuesAfter(fixed, InSync(fixed, s.live), s, move, next, Place(move).value);
    }
  }

  lemma {:induction false} RestsLeftBehind(fixed: Fixed, s: System, x: Key) returns (s': System)
    requires BufferOk(s.buffer) && ProperNames(fixed, s.buffer) && LeftBehind(fixed, s, x)
    ensures Reaches(fixed, s, s') && Idle(s') && LeftBehind(fixed, s', x)
    decreases Unloaded(fixed, s), |Deviations(fixed, s.live, s.buffer)|, Queued(s)
  {
    if Idle(s) {
      ReachesSelf(fixed, s);
      s' := s;
    } else {
      NeverStuck(fixed, s);
      var next :| Step(fixed, s, next);
      StepDecreases(fixed, s, next);
      StepLeavesBehind(fixed, s, next, x);
      s' := RestsLeftBehind(fixed, next, x);
      StepThenReaches(fixed, s, next, s');
    }
  }

  /** The handler runs in the excluded namespace and loads the name of a policy elsewhere, which is then left behind. */
  lemma HandlerLeavesBehind(fixed: Fixed, s: System, k: Key, tampered: System, x: Key) returns (next: System)
    requires AtRest(fixed, s) && Tampered(s, k, tampered)
    requires k.namespace in fixed.namespaces && !Handled(fixed, k.namespace) && Stray(fixed, s, x, k.namespace)
    ensures Step(fixed, tampered, next) && LeftBehind(fixed, next, x)
  {
    var move, after := PolicyStepPossible(fixed, tampered, KeyString(k));
    next := after;
    RunLoadsStray(fixed, s, k, tampered, x, move, next);
    assert Step(fixed, tampered, next);
  }

  lemma RunLoadsStray(fixed: Fixed, s: System, k: Key, tampered: System, x: Key, move: Move, next: System)
    requires AtRest(fixed, s) && Tampered(s, k, tampered)
    requires k.namespace in fixed.namespaces && !Handled(fixed, k.namespace) && Stray(fixed, s, x, k.namespace)
    requires move.PolicyMove? && move.key == KeyString(k)
    requires StepBy(fixed, InSync(fixed, tampered.live), tampered, move, next)
    ensures LeftBehind(fixed, next, x)
  {
    var names, src := NamesOf(fixed, k.namespace), SourceOf(fixed, k.namespace);
    KeyRoundTrip(k);
    PolicyHandlerReconciles(fixed.defaults, InSync(fixed, tampered.live), Start(tampered), move.after, move.key, k,
                            move.err);
    EffectElsewhere(Start(tampered), move.after, k.namespace, names, src,
                    Target(fixed.templates, s.buffer, k.namespace, names, k.name), x);
    QueuesAfterRaising(tampered, move, next, k.namespace);
  }

  lemma EffectElsewhere(w: World, w': World, ns: string, names: seq<string>, src: string, target: set<Key>, x: Key)
    requires PolicyEffect(w, w', ns, names, src, target) && w.raised == {}
    requires x.namespace != ns
    ensures Agree(w.live, w'.live, x)
    ensures forall k :: k in w'.raised ==> k.namespace == ns
  {
    assert forall k :: k in target ==> Managed(w'.buffer, ns, names, k);
  }

  lemma QueuesAfterRaising(s: System, move: Move, next: System, ns: string)
    requires ns != "" && '/' !in ns && Area(move.key) == Some(ns) && s.policyQueue == {move.key}
    requires next.policyQueue <= s.policyQueue + Keys(move.after.raised)
    requires forall k :: k in move.after.raised ==> k.namespace == ns
    ensures forall key :: key in next.policyQueue ==> Area(key) == Some(ns) || Area(key) == None
  {
    forall k: Key | k in move.after.raised
      ensures Area(KeyString(k)) == Some(ns) || Area(KeyString(k)) == None
    {
      KeyNamespace(k);
    }
  }

  lemma LeavingBehindEndsUnconverged(fixed: Fixed, s: System, k: Key, tampered: System)
    requires AtRest(fixed, s) && Tampered(s, k, tampered)
    requires k.namespace in fixed.namespaces && !Handled(fixed, k.namespace)
    requires !Mendable(fixed, s, k, tampered)
    ensures !AlwaysConverges(fixed, tampered)
  {
    var x :| x in s.live && Stray(fixed, s, x, k.namespace);
    var next := HandlerLeavesBehind(fixed, s, k, tampered, x);
    StepKeepsNames(fixed, tampered, next);
    var s' := RestsLeftBehind(fixed, next, x);
    StepThenReaches(fixed, tampered, next, s');
    assert x == Key(x.namespace, x.name);
    assert !ConvergedAt(fixed, s', x.namespace);
  }

  /**
   From rest, after someone has updated or deleted one policy, every run of handler steps
   converges again if and only if the change is mendable.
   */
  lemma MendsExactly(fixed: Fixed, s: System, k: Key, tampered: System)
    requires AtRest(fixed, s) && Tampered(s, k, tampered)
    ensures AlwaysConverges(fixed, tampered) <==> Mendable(fixed, s, k, tampered)
  {
    if Mendable(fixed, s, k, tampered) {
      RestIsReady(fixed, s);
      TamperingKeepsReady(fixed, s, k, tampered);
      forall s' | Reaches(fixed, tampered, s') && Idle(s')
        ensures AllConverged(fixed, s')
      {
        var via :| Path(fixed, tampered, via, s');
        PathKeepsReady(fixed, tampered, via, s');
        IdleIsConverged(fixed, s');
      }
    } else if Handled(fixed, k.namespace) {
      GivingUpEndsUnconverged(fixed, s, k, tampered);
    } else {
      LeavingBehindEndsUnconverged(fixed, s, k, tampered);
    }
  }

  /** A repair that never comes: a namespace wants "a" and "b", there is no template "b", and someone deletes "a". */
  lemma RepairCanFail(ns: string, spec: Spec) returns (fixed: Fixed, s: System, k: Key, tampered: System)
    requires ns != "" && '/' !in ns
    ensures AtRest(fixed, s) && Tampered(s, k, tampered) && !AlwaysConverges(fixed, tampered)
  {
    fixed := Fixed(Defaults(true, "a;b", []), map["a" := spec], map[ns := Namespace(ns, map[])]);
    k := Key(ns, "a");
    s := System(map[k := Bare(Template("a", spec), ns)], map["a" := Template("a", spec)], {}, {});
    tampered := System(map[], s.buffer, {KeyString(k)}, {});
    var names := ["a", "b"];
    assert names[1..] == ["b"];
    assert Join(names, DELIMITER) == "a;b";
    SplitJoin(names, DELIMITER);
    assert NamesOf(fixed, ns) == names;
    assert tampered.live == s.live - {k};
    assert names[0] in names && names[1] in names;
    assert ConvergedAt(fixed, s, ns);
    MendsExactly(fixed, s, k, tampered);
  }
}
