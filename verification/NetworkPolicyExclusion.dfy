/**
 What the exclusion list is worth: an excluded namespace stays as it is while none of its
 policies is queued, but an event of one of them makes the controller act there.
 */
module NetworkPolicyExclusion {
  import opened Results
  import opened Text
  import opened Resources
  import opened ObjectKeys
  import opened NetworkPolicies
  import opened NetworkPolicyLaws
  import opened NetworkPolicyConvergence
  import opened NetworkPolicyRuns
  import opened NetworkPolicyHealing

  /** The namespace is excluded and none of its policies is queued. */
  predicate LeftAlone(fixed: Fixed, s: System, ns: string) {
    ns in fixed.defaults.excludes && forall key :: key in s.policyQueue ==> Area(key) != Some(ns)
  }

  /** All policies of the namespace are the same in both. */
  ghost predicate SamePolicies(live: Store, live': Store, ns: string) {
    forall k: Key :: k.namespace == ns ==> Agree(live, live', k)
  }

  /** A handler run, whatever fails in it, does nothing in such a namespace, nor queues one of its policies. */
  lemma RunLeavesExcluded(fixed: Fixed, env: Env, s: System, move: Move, s': System, ns: string)
    requires Sees(fixed, env) && BufferOk(s.buffer) && ProperNames(fixed, s.buffer)
    requires StepBy(fixed, env, s, move, s') && LeftAlone(fixed, s, ns)
    ensures SamePolicies(s.live, s'.live, ns) && LeftAlone(fixed, s', ns)
  {
    RunIsSafe(fixed, env, s, move, s');
    if !Passes(fixed, env, s, move) {
      QueuesAfter(fixed, env, s, move, s', Place(move).value);
      assert Place(move) != Some(ns);
    }
  }

  /**
   In particular no handler step touches an excluded namespace none of whose policies is
   queued, nor queues one of them.
   */
  lemma StepLeavesExcluded(fixed: Fixed, s: System, s': System, ns: string)
    requires BufferOk(s.buffer) && ProperNames(fixed, s.buffer) && Step(fixed, s, s') && LeftAlone(fixed, s, ns)
    ensures SamePolicies(s.live, s'.live, ns) && LeftAlone(fixed, s', ns)
    ensures BufferOk(s'.buffer) && ProperNames(fixed, s'.buffer)
  {
    var move :| StepBy(fixed, InSync(fixed, s.live), s, move, s');
    StepKeepsNames(fixed, s, s');
    RunLeavesExcluded(fixed, InSync(fixed, s.live), s, move, s', ns);
  }

  lemma {:induction false} PathLeavesExcluded(fixed: Fixed, s: System, via: seq<System>, s': System, ns: string)
    requires BufferOk(s.buffer) && ProperNames(fixed, s.buffer) && LeftAlone(fixed, s, ns) && Path(fixed, s, via, s')
    ensures SamePolicies(s.live, s'.live, ns) && LeftAlone(fixed, s', ns)
    decreases |via|
  {
    if via != [] {
      StepLeavesExcluded(fixed, s, via[0], ns);
      PathLeavesExcluded(fixed, via[0], via[1..], s', ns);
      assert forall k: Key :: k.namespace == ns ==> Agree(s.live, via[0].live, k) && Agree(via[0].live, s'.live, k);
    }
  }

  /** Over every run of handler steps, an excluded namespace none of whose policies is queued keeps all its policies. */
  lemma ExcludedStaysAsItIs(fixed: Fixed, s: System, s': System, ns: string)
    requires BufferOk(s.buffer) && ProperNames(fixed, s.buffer) && LeftAlone(fixed, s, ns) && Reaches(fixed, s, s')
    ensures SamePolicies(s.live, s'.live, ns) && LeftAlone(fixed, s', ns)
  {
    var via :| Path(fixed, s, via, s');
    PathLeavesExcluded(fixed, s, via, s', ns);
  }

  /**
   Exactly when a run on a policy of an excluded namespace leaves all policies there as they
   are: the policy, if its handler gets to reconcile it, is as it should be, and no live policy
   of the namespace bears a name that is buffered once the handler has loaded its names, and
   is not expected.
   */
  lemma PolicyRunTouchesExactly(fixed: Fixed, s: System, move: Move, s': System, k: Key)
    requires BufferOk(s.buffer) && StepBy(fixed, InSync(fixed, s.live), s, move, s')
    requires k.namespace != "" && '/' !in k.namespace && '/' !in k.name
    requires k.namespace in fixed.namespaces && k.namespace in fixed.defaults.excludes
    requires move.PolicyMove? && move.key == KeyString(k)
    ensures var names := NamesOf(fixed, k.namespace);
            var buffer := Resolved(fixed.templates, s.buffer, Reached(fixed.templates, s.buffer, names));
            SamePolicies(s.live, s'.live, k.namespace) <==>
              && (k in Target(fixed.templates, s.buffer, k.namespace, names, k.name) ==>
                    k in s.live && k.name in buffer && !ReconcileIsNeeded(s.live[k], buffer[k.name]))
              && forall x :: x in s.live ==> !Surplus(buffer, k.namespace, names, x)
  {
    var names, src := NamesOf(fixed, k.namespace), SourceOf(fixed, k.namespace);
    var target := Target(fixed.templates, s.buffer, k.namespace, names, k.name);
    KeyRoundTrip(k);
    PolicyHandlerReconciles(fixed.defaults, InSync(fixed, s.live), Start(s), move.after, move.key, k, move.err);
    EffectTouchesExactly(Start(s), move.after, k.namespace, names, src, target, k);
  }

  lemma EffectTouchesExactly(w: World, w': World, ns: string, names: seq<string>, src: string, target: set<Key>, k: Key)
    requires PolicyEffect(w, w', ns, names, src, target) && k.namespace == ns
    requires target <= {k}
    ensures SamePolicies(w.live, w'.live, ns) <==>
              && (k in target ==>
                  k in w.live && k.name in w'.buffer && !ReconcileIsNeeded(w.live[k], w'.buffer[k.name]))
              && forall x :: x in w.live ==> !Surplus(w'.buffer, ns, names, x)
  {
    if SamePolicies(w.live, w'.live, ns) {
      forall x: Key | x.namespace == ns
        ensures x in w.live && Agree(w.live, w'.live, x) ==> !Surplus(w'.buffer, ns, names, x)
      {
        assert x in target ==> Managed(w'.buffer, ns, names, x);
      }
      if k in target {
        assert Managed(w'.buffer, ns, names, k);
        assert Agree(w.live, w'.live, k);
      }
    }
  }

  /** A step on the queued key of an expected policy brings the policy about, also in an excluded namespace. */
  lemma QueuedPolicyAppears(fixed: Fixed, s: System, k: Key) returns (s': System)
    requires BufferOk(s.buffer) && KeyString(k) in s.policyQueue
    requires k.namespace != "" && '/' !in k.namespace && '/' !in k.name && k.namespace in fixed.namespaces
    requires k.name in NamesOf(fixed, k.namespace)
    requires AllResolvable(fixed.templates, s.buffer, NamesOf(fixed, k.namespace))
    ensures Step(fixed, s, s') && k in s'.live
  {
    var move, next := PolicyStepPossible(fixed, s, KeyString(k));
    s' := next;
    KeyRoundTrip(k);
    PolicyHandlerReconciles(fixed.defaults, InSync(fixed, s.live), Start(s), move.after, move.key, k, move.err);
    assert Key(k.namespace, k.name) == k;
    assert Step(fixed, s, s');
  }

  /**
   Someone deletes a policy of an excluded namespace while the controller rests, and one
   handler step creates it again.
   */
  ghost predicate ExcludedInVain(fixed: Fixed, s: System, k: Key, tampered: System, s': System) {
    && BufferOk(s.buffer) && ProperNames(fixed, s.buffer) && Idle(s)
    && k.namespace in fixed.defaults.excludes
    && Tampered(s, k, tampered) && k !in tampered.live
    && Step(fixed, tampered, s') && k in s'.live
  }

  /** It happens in any excluded namespace where someone has a policy of an expected template's name. */
  lemma ExclusionCanFail(ns: string, spec: Spec) returns (fixed: Fixed, s: System, k: Key, tampered: System, s': System)
    requires ns != "" && '/' !in ns
    ensures fixed.defaults == Defaults(true, "p", [ns]) && k == Key(ns, "p")
    ensures ExcludedInVain(fixed, s, k, tampered, s')
  {
    k := Key(ns, "p");
    fixed := Fixed(Defaults(true, "p", [ns]), map["p" := spec], map[ns := Namespace(ns, map[])]);
    s := System(map[k := Policy("p", ns, map[], spec)], map["p" := Template("p", spec)], {}, {});
    tampered := System(map[], s.buffer, {KeyString(k)}, {});
    SplitOne("p", DELIMITER);
    assert NamesOf(fixed, ns) == ["p"];
    assert tampered.live == s.live - {k};
    s' := QueuedPolicyAppears(fixed, tampered, k);
  }
}
