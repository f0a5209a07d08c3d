/**
 The outcome of runs of the network-policy controller from start-up: without strays it is
 one and the same for every order of the handler runs, and with one it is not.
 */
module NetworkPolicyOutcomes {
  import opened ObjectKeys
  import opened NetworkPolicies
  import opened NetworkPolicyLaws
  import opened NetworkPolicyConvergence
  import opened NetworkPolicyRuns
  import opened NetworkPolicyHealing

  // ---------------------------------------------------------------- the outcome itself

  /** Some namespace that is handled expects the name. */
  predicate Wanted(fixed: Fixed, n: string) {
    exists ns :: ns in fixed.namespaces && Handled(fixed, ns) && n in NamesOf(fixed, ns)
  }

  /** The buffer with every wanted name that can be loaded. */
  function FinalBuffer(fixed: Fixed, buffer: Buffer): Buffer {
    map n | n in buffer.Keys + (set m | m in fixed.templates && Wanted(fixed, m)) ::
      if n in buffer then buffer[n] else Template(n, fixed.templates[n])
  }

  /** The policy is one the controller decides about in the end. */
  predicate Decided(fixed: Fixed, s: System, k: Key) {
    Handled(fixed, k.namespace) && k.name in FinalBuffer(fixed, s.buffer)
  }

  /** What becomes of a policy the controller decides about. */
  predicate Done(fixed: Fixed, s: System, live': Store, k: Key)
    requires Decided(fixed, s, k)
  {
    if k.name in NamesOf(fixed, k.namespace) then
      k in live' && live'[k] == Goal(s.live, FinalBuffer(fixed, s.buffer), SourceOf(fixed, k.namespace), k)
    else k !in live'
  }

  /** The policies that a start leads to: those decided about as they should be, all others as they were. */
  ghost predicate EndsIn(fixed: Fixed, s: System, s': System) {
    s'.buffer == FinalBuffer(fixed, s.buffer) && forall k: Key :: PolicyEnds(fixed, s, s'.live, k)
  }

  predicate PolicyEnds(fixed: Fixed, s: System, live': Store, k: Key) {
    if Decided(fixed, s, k) then Done(fixed, s, live', k) else Agree(s.live, live', k)
  }

  /** On the way: every policy is as it was at the start, or as it is in the end. */
  ghost predicate Underway(fixed: Fixed, s: System, now: System) {
    && Grows(s.buffer, now.buffer) && Grows(now.buffer, FinalBuffer(fixed, s.buffer))
    && (forall ns :: ns in fixed.namespaces && Active(fixed, now, ns) ==> Handled(fixed, ns))
    && (forall k: Key :: PolicyUnderway(fixed, s, now.live, k))
  }

  predicate PolicyUnderway(fixed: Fixed, s: System, live: Store, k: Key) {
    Agree(s.live, live, k) || (Decided(fixed, s, k) && Done(fixed, s, live, k))
  }

  // ------------------------------------------------------------------------ every step

  /** What a run does with one policy of its namespace: nothing, or what reconciling it means. */
  predicate ReconciledOrKept(live: Store, live': Store, buffer: Buffer, ns: string, names: seq<string>, src: string,
                             k: Key) {
    || Agree(live, live', k)
    || (k.name in buffer
        && if k.name in names then k in live' && live'[k] == Goal(live, buffer, src, k) else k !in live')
  }

  lemma RunReconcilesOrKeeps(fixed: Fixed, s: System, move: Move, s': System, ns: string, k: Key)
    requires BufferOk(s.buffer) && StepBy(fixed, InSync(fixed, s.live), s, move, s') && WorksOn(fixed, s, move, ns)
    requires k.namespace == ns
    ensures ReconciledOrKept(s.live, s'.live, s'.buffer, ns, NamesOf(fixed, ns), SourceOf(fixed, ns), k)
  {
    match move {
      case NamespaceMove(key, after, err) =>
        NamespaceHandlerReconciles(fixed.defaults, InSync(fixed, s.live), Start(s), after, key, err);
        ReconciledEach(s.live, s'.live, s'.buffer, ns, NamesOf(fixed, ns), SourceOf(fixed, ns), k);
      case PolicyMove(key, after, err) =>
        var own := SplitKey(key).value;
        PolicyHandlerReconciles(fixed.defaults, InSync(fixed, s.live), Start(s), after, key, own, err);
    }
  }

  lemma PolicyStaysUnderway(fixed: Fixed, s: System, live: Store, live': Store, buffer: Buffer, k: Key)
    requires Handled(fixed, k.namespace) && Grows(buffer, FinalBuffer(fixed, s.buffer))
    requires PolicyUnderway(fixed, s, live, k)
    requires ReconciledOrKept(live, live', buffer, k.namespace, NamesOf(fixed, k.namespace),
                              SourceOf(fixed, k.namespace), k)
    ensures PolicyUnderway(fixed, s, live', k)
  {
  }

  lemma LoadsWanted(fixed: Fixed, s: System, now: System, move: Move, ns: string)
    requires BufferOk(s.buffer) && Underway(fixed, s, now) && WorksOn(fixed, now, move, ns) && Handled(fixed, ns)
    ensures Grows(s.buffer, move.after.buffer) && Grows(move.after.buffer, FinalBuffer(fixed, s.buffer))
  {
    var final := FinalBuffer(fixed, s.buffer);
    forall n | n in move.after.buffer
      ensures n in final && final[n] == move.after.buffer[n]
    {
      if n !in now.buffer {
        assert Wanted(fixed, n);
        assert n !in s.buffer;
      }
    }
  }

  lemma StepStaysUnderway(fixed: Fixed, s: System, now: System, next: System)
    requires BufferOk(s.buffer) && Ready(fixed, now) && Underway(fixed, s, now) && Step(fixed, now, next)
    ensures Ready(fixed, next) && Underway(fixed, s, next)
  {
    StepKeepsReady(fixed, now, next);
    var move :| StepBy(fixed, InSync(fixed, now.live), now, move, next);
    RunIsSafe(fixed, InSync(fixed, now.live), now, move, next);
    if Passes(fixed, InSync(fixed, now.live), now, move) {
      PassStaysUnderway(fixed, s, now, move, next);
    } else {
      RunStaysUnderway(fixed, s, now, move, next, Place(move).value);
    }
  }

  lemma PassStaysUnderway(fixed: Fixed, s: System, now: System, move: Move, next: System)
    requires Underway(fixed, s, now) && StepBy(fixed, InSync(fixed, now.live), now, move, next)
    requires Passes(fixed, InSync(fixed, now.live), now, move)
    ensures Underway(fixed, s, next)
  {
    forall ns | ns in fixed.namespaces && Active(fixed, next, ns)
      ensures Handled(fixed, ns)
    {
      assert Active(fixed, now, ns);
    }
  }

  lemma RunStaysUnderway(fixed: Fixed, s: System, now: System, move: Move, next: System, ns: string)
    requires BufferOk(s.buffer) && Ready(fixed, now) && Underway(fixed, s, now)
    requires StepBy(fixed, InSync(fixed, now.live), now, move, next)
    requires WorksOn(fixed, now, move, ns) && Active(fixed, now, ns)
    ensures Underway(fixed, s, next)
  {
    LoadsWanted(fixed, s, now, move, ns);
    QueuesAfter(fixed, InSync(fixed, now.live), now, move, next, ns);
    forall other | other in fixed.namespaces && Active(fixed, next, other)
      ensures Handled(fixed, other)
    {
      assert Active(fixed, now, other);
    }
    forall k: Key
      ensures PolicyUnderway(fixed, s, next.live, k)
    {
      assert PolicyUnderway(fixed, s, now.live, k);
      if k.namespace == ns {
        RunReconcilesOrKeeps(fixed, now, move, next, ns, k);
        PolicyStaysUnderway(fixed, s, now.live, next.live, next.buffer, k);
      } else {
        assert Agree(now.live, next.live, k);
      }
    }
  }

  lemma {:induction false} PathStaysUnderway(fixed: Fixed, s: System, now: System, via: seq<System>, s': System)
    requires BufferOk(s.buffer) && Ready(fixed, now) && Underway(fixed, s, now) && Path(fixed, now, via, s')
    ensures Ready(fixed, s') && Underway(fixed, s, s')
    decreases |via|
  {
    if via != [] {
      StepStaysUnderway(fixed, s, now, via[0]);
      PathStaysUnderway(fixed, s, via[0], via[1..], s');
    }
  }

  // --------------------------------------------------------------------------- at rest

  lemma RestHasFinalBuffer(fixed: Fixed, s: System, s': System)
    requires AllConverged(fixed, s')
    requires Grows(s.buffer, s'.buffer) && Grows(s'.buffer, FinalBuffer(fixed, s.buffer))
    ensures s'.buffer == FinalBuffer(fixed, s.buffer)
  {
    var final := FinalBuffer(fixed, s.buffer);
    forall n | n in final
      ensures n in s'.buffer
    {
      if n !in s.buffer {
        var ns :| ns in fixed.namespaces && Handled(fixed, ns) && n in NamesOf(fixed, ns);
        assert ConvergedAt(fixed, s', ns);
      }
    }
  }

  lemma RestHasFinalPolicy(fixed: Fixed, s: System, s': System, k: Key)
    requires AllConverged(fixed, s') && s'.buffer == FinalBuffer(fixed, s.buffer)
    requires PolicyUnderway(fixed, s, s'.live, k)
    ensures PolicyEnds(fixed, s, s'.live, k)
  {
    if Decided(fixed, s, k) {
      assert ConvergedAt(fixed, s', k.namespace);
      assert k == Key(k.namespace, k.name);
    }
  }

  lemma RestIsTheEnd(fixed: Fixed, s: System, s': System)
    requires Ready(fixed, s') && Underway(fixed, s, s') && Idle(s')
    ensures EndsIn(fixed, s, s')
  {
    IdleIsConverged(fixed, s');
    RestHasFinalBuffer(fixed, s, s');
    forall k: Key
      ensures PolicyEnds(fixed, s, s'.live, k)
    {
      RestHasFinalPolicy(fixed, s, s', k);
    }
  }

  /** Without strays every run from start-up that comes to rest ends with exactly these policies and this buffer. */
  lemma EveryRunEndsTheSame(fixed: Fixed, s: System, s': System)
    requires Starts(fixed, s) && NoStrays(fixed, s) && Reaches(fixed, s, s') && Idle(s')
    ensures EndsIn(fixed, s, s')
  {
    StartsReady(fixed, s);
    var via :| Path(fixed, s, via, s');
    StartIsUnderway(fixed, s);
    PathStaysUnderway(fixed, s, s, via, s');
    RestIsTheEnd(fixed, s, s');
  }

  lemma StartIsUnderway(fixed: Fixed, s: System)
    requires Starts(fixed, s)
    ensures Underway(fixed, s, s)
  {
    assert forall k: Key :: Agree(s.live, s.live, k);
  }

  lemma OneEnd(fixed: Fixed, s: System, first: System, second: System)
    requires EndsIn(fixed, s, first) && EndsIn(fixed, s, second) && Idle(first) && Idle(second)
    ensures first == second
  {
    forall k: Key
      ensures Agree(first.live, second.live, k)
    {
      assert PolicyEnds(fixed, s, first.live, k) && PolicyEnds(fixed, s, second.live, k);
    }
    AgreeEverywhere(first.live, second.live);
  }

  // ---------------------------------------------------------- a run that deletes a stray

  /** The policy's name is buffered, its namespace does not expect it, and is still to be handled or rid of it. */
  predicate Doomed(fixed: Fixed, s: System, k: Key) {
    && Handled(fixed, k.namespace) && k.name in s.buffer && k.name !in NamesOf(fixed, k.namespace)
    && (k.namespace in s.namespaceQueue || k !in s.live)
  }

  lemma StepDooms(fixed: Fixed, s: System, next: System, k: Key)
    requires BufferOk(s.buffer) && ProperNames(fixed, s.buffer) && Doomed(fixed, s, k) && Step(fixed, s, next)
    ensures BufferOk(next.buffer) && ProperNames(fixed, next.buffer) && Doomed(fixed, next, k)
  {
    StepKeepsNames(fixed, s, next);
    var move :| StepBy(fixed, InSync(fixed, s.live), s, move, next);
    RunIsSafe(fixed, InSync(fixed, s.live), s, move, next);
    if !Passes(fixed, InSync(fixed, s.live), s, move) {
      RunDooms(fixed, s, move, next, k, Place(move).value);
    }
  }

  lemma RunDooms(fixed: Fixed, s: System, move: Move, next: System, k: Key, ns: string)
    requires BufferOk(s.buffer) && Doomed(fixed, s, k)
    requires StepBy(fixed, InSync(fixed, s.live), s, move, next) && WorksOn(fixed, s, move, ns)
    ensures k.namespace in next.namespaceQueue || k !in next.live
  {
    if move.NamespaceMove? && ns == k.namespace {
      NamespaceRunConverges(fixed, s, move, next, ns);
      assert k == Key(k.namespace, k.name);
    }
  }

  lemma {:induction false} RestsDoomed(fixed: Fixed, s: System, k: Key) returns (s': System)
    requires BufferOk(s.buffer) && ProperNames(fixed, s.buffer) && Doomed(fixed, s, k)
    ensures Reaches(fixed, s, s') && Idle(s') && k !in s'.live
    decreases Unloaded(fixed, s), |Deviations(fixed, s.live, s.buffer)|, Queued(s)
  {
    if Idle(s) {
      ReachesSelf(fixed, s);
      s' := s;
    } else {
      NeverStuck(fixed, s);
      var next :| Step(fixed, s, next);
      StepDecreases(fixed, s, next);
      StepDooms(fixed, s, next, k);
      s' := RestsDoomed(fixed, next, k);
      StepThenReaches(fixed, s, next, s');
    }
  }

  /** The other namespace is handled first: the stray's own run then deletes it. */
  lemma StrayGoes(fixed: Fixed, s: System, k: Key, other: string) returns (s': System)
    requires Starts(fixed, s) && Stray(fixed, s, k, other) && Handled(fixed, other)
    ensures Reaches(fixed, s, s') && Idle(s') && k !in s'.live
  {
    var move, next := NamespaceStepPossible(fixed, s, other);
    assert Step(fixed, s, next);
    StepKeepsNames(fixed, s, next);
    OtherRunDooms(fixed, s, move, next, k, other);
    s' := RestsDoomed(fixed, next, k);
    StepThenReaches(fixed, s, next, s');
  }

  lemma OtherRunDooms(fixed: Fixed, s: System, move: Move, next: System, k: Key, other: string)
    requires BufferOk(s.buffer) && Stray(fixed, s, k, other) && Handled(fixed, other)
    requires k.namespace in s.namespaceQueue
    requires move.NamespaceMove? && move.key == other && StepBy(fixed, InSync(fixed, s.live), s, move, next)
    ensures Doomed(fixed, next, k)
  {
    NamespaceRunConverges(fixed, s, move, next, other);
  }

  /** All runs from the state that come to rest end in the same state. */
  ghost predicate OneOutcome(fixed: Fixed, s: System) {
    forall first, second :: Reaches(fixed, s, first) && Idle(first) && Reaches(fixed, s, second) && Idle(second) ==>
      first == second
  }

  /** From start-up the outcome does not depend on the order of the handler runs if and only if there are no strays. */
  lemma OutcomeIsUniqueExactly(fixed: Fixed, s: System)
    requires Starts(fixed, s)
    ensures OneOutcome(fixed, s) <==> NoStrays(fixed, s)
  {
    if NoStrays(fixed, s) {
      forall first, second | Reaches(fixed, s, first) && Idle(first) && Reaches(fixed, s, second) && Idle(second)
        ensures first == second
      {
        EveryRunEndsTheSame(fixed, s, first);
        EveryRunEndsTheSame(fixed, s, second);
        OneEnd(fixed, s, first, second);
      }
    } else {
      var k, other :| k in s.live && other in fixed.namespaces && Active(fixed, s, other) && Stray(fixed, s, k, other);
      var kept := StrayRemains(fixed, s, k, other);
      var gone := StrayGoes(fixed, s, k, other);
      assert kept != gone;
    }
  }
}
