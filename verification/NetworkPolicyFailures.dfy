/**
 Failures that the handlers log and forget: what they can leave undone for good, and
 exactly which failures a handler run that ends without an error makes up for.
 */
module NetworkPolicyFailures {
  import opened Text
  import opened Resources
  import opened ObjectKeys
  import opened NetworkPolicies
  import opened NetworkPolicyLaws
  import opened NetworkPolicyConvergence
  import opened NetworkPolicyRuns
  import opened NetworkPolicyHealing

  // ------------------------------------------------------------- one name in the loop

  /** The expected policy is there with the buffered spec. */
  predicate NameRight(w: World, ns: string, n: string) {
    n in w.buffer && Key(ns, n) in w.live && w.live[Key(ns, n)].spec.wire == w.buffer[n].spec.wire
  }

  /** The lister shows the policy with the template's spec, so that nothing is written. */
  predicate UpToDate(env: Env, ns: string, n: string, template: Policy) {
    Key(ns, n) in env.lister && !ReconcileIsNeeded(env.lister[Key(ns, n)], template)
  }

  /** Handling the name from this world meets no failure: neither in a load it needs nor in a write it needs. */
  predicate Succeeds(env: Env, w: World, ns: string, n: string) {
    if n in w.buffer then UpToDate(env, ns, n, w.buffer[n]) || w.calls !in env.faults
    else
      && n in env.templates && w.calls !in env.faults
      && (UpToDate(env, ns, n, Template(n, env.templates[n])) || w.calls + 1 !in env.faults)
  }

  /** Some occurrence of the name in the list is handled without a failure. */
  predicate SomeSucceeds(env: Env, w: World, ns: string, names: seq<string>, src: string, n: string) {
    exists i :: 0 <= i < |names| && names[i] == n && Succeeds(env, SyncNames(env, w, ns, names[..i], src), ns, n)
  }

  lemma SomeSucceedsSnoc(env: Env, w: World, ns: string, front: seq<string>, src: string, name: string, n: string)
    ensures SomeSucceeds(env, w, ns, front + [name], src, n) <==>
              || SomeSucceeds(env, w, ns, front, src, n)
              || (name == n && Succeeds(env, SyncNames(env, w, ns, front, src), ns, n))
  {
    var names := front + [name];
    assert names[..|front|] == front && names[|front|] == name;
    assert forall i :: 0 <= i < |front| ==> names[i] == front[i] && names[..i] == front[..i];
    if SomeSucceeds(env, w, ns, front, src, n) {
      var i :| 0 <= i < |front| && front[i] == n && Succeeds(env, SyncNames(env, w, ns, front[..i], src), ns, n);
      assert names[i] == n && names[..i] == front[..i];
    }
  }

  /** What is true of a name that the loop has come past, whether an occurrence succeeded or not. */
  predicate Past(env: Env, w: World, mid: World, ns: string, n: string, succeeded: bool) {
    && BufferOk(mid.buffer)
    && if succeeded then NameRight(mid, ns, n) else Agree(w.live, mid.live, Key(ns, n))
  }

  lemma WriteDecides(env: Env, w: World, mid: World, ns: string, n: string, src: string, succeeded: bool)
    requires env.lister == w.live && Past(env, w, mid, ns, n, succeeded) && n in mid.buffer
    ensures var w' := SyncBuffered(env, mid, ns, n, src).world;
            var right := succeeded || UpToDate(env, ns, n, mid.buffer[n]) || mid.calls !in env.faults;
            Past(env, w, w', ns, n, right) && (NameRight(w', ns, n) <==> right)
  {
    assert mid.buffer[n].name == n;
  }

  /** One occurrence of a name, as the lister still shows the start of the run. */
  lemma OccurrenceDecides(env: Env, w: World, mid: World, ns: string, n: string, src: string, succeeded: bool)
    requires env.lister == w.live && Past(env, w, mid, ns, n, succeeded)
    ensures var w' := SyncName(env, mid, ns, n, src).world;
            var right := succeeded || Succeeds(env, mid, ns, n);
            Past(env, w, w', ns, n, right) && (NameRight(w', ns, n) <==> right)
  {
    if n in mid.buffer {
      WriteDecides(env, w, mid, ns, n, src, succeeded);
    } else if Load(env, mid, n).ok {
      WriteDecides(env, w, Load(env, mid, n).world, ns, n, src, succeeded);
    }
  }

  /** The occurrence of another name changes nothing for this one. */
  lemma OtherNameIsNoMatter(env: Env, w: World, mid: World, ns: string, name: string, n: string, src: string,
                            succeeded: bool)
    requires Past(env, w, mid, ns, n, succeeded) && name != n
    ensures var w' := SyncName(env, mid, ns, name, src).world;
            && Past(env, w, w', ns, n, succeeded)
            && (NameRight(w', ns, n) <==> NameRight(mid, ns, n))
  {
    if name in mid.buffer {
      OtherWriteIsNoMatter(env, mid, ns, name, n, src);
    } else if Load(env, mid, name).ok {
      OtherWriteIsNoMatter(env, Load(env, mid, name).world, ns, name, n, src);
    }
  }

  lemma OtherWriteIsNoMatter(env: Env, mid: World, ns: string, name: string, n: string, src: string)
    requires BufferOk(mid.buffer) && name in mid.buffer && name != n
    ensures var w' := SyncBuffered(env, mid, ns, name, src).world;
            w'.buffer == mid.buffer && Agree(mid.live, w'.live, Key(ns, n))
  {
    assert mid.buffer[name].name == name;
  }

  /** After the loop an expected name is right exactly when one of its occurrences was handled without a failure. */
  lemma {:induction false} LoopDecides(env: Env, w: World, ns: string, names: seq<string>, src: string, n: string)
    requires env.lister == w.live && BufferOk(w.buffer)
    ensures var mid := SyncNames(env, w, ns, names, src);
            && Past(env, w, mid, ns, n, SomeSucceeds(env, w, ns, names, src, n))
            && (n in names ==> (NameRight(mid, ns, n) <==> SomeSucceeds(env, w, ns, names, src, n)))
    decreases |names|
  {
    if names != [] {
      var front, name := names[..|names| - 1], names[|names| - 1];
      assert front + [name] == names;
      LoopDecides(env, w, ns, front, src, n);
      SomeSucceedsSnoc(env, w, ns, front, src, name, n);
      var mid := SyncNames(env, w, ns, front, src);
      if name == n {
        OccurrenceDecides(env, w, mid, ns, n, src, SomeSucceeds(env, w, ns, front, src, n));
      } else {
        OtherNameIsNoMatter(env, w, mid, ns, name, n, src, SomeSucceeds(env, w, ns, front, src, n));
      }
    }
  }

  // -------------------------------------------------------------------- the deletions

  /** No lookup of a live policy fails among the deletions in this order. */
  predicate LookupsSucceed(env: Env, w: World, ns: string, order: seq<string>) {
    forall j :: 0 <= j < |order| && Key(ns, order[j]) in w.live ==>
      DeleteAll(env, w, ns, order[..j]).world.calls !in env.faults
  }

  lemma LookupsSnoc(env: Env, w: World, ns: string, front: seq<string>, name: string)
    ensures LookupsSucceed(env, w, ns, front + [name]) <==>
              && LookupsSucceed(env, w, ns, front)
              && (Key(ns, name) in w.live ==> DeleteAll(env, w, ns, front).world.calls !in env.faults)
  {
    var order := front + [name];
    assert order[..|front|] == front && order[|front|] == name;
    assert forall j :: 0 <= j < |front| ==> order[j] == front[j] && order[..j] == front[..j];
    if LookupsSucceed(env, w, ns, order) {
      forall j | 0 <= j < |front| && Key(ns, front[j]) in w.live
        ensures DeleteAll(env, w, ns, front[..j]).world.calls !in env.faults
      {
        assert order[j] == front[j] && order[..j] == front[..j];
      }
    }
  }

  /** Deletions that end without an error remove all listed policies exactly when no lookup of a live one fails. */
  lemma {:induction false} DeletionsDecide(env: Env, w: World, ns: string, order: seq<string>)
    requires forall i, k :: 0 <= i < k < |order| ==> order[i] != order[k]
    requires DeleteAll(env, w, ns, order).ok
    ensures Bearing(DeleteAll(env, w, ns, order).world.live, ns, order) == {} <==> LookupsSucceed(env, w, ns, order)
    decreases |order|
  {
    if order != [] {
      var front, name := order[..|order| - 1], order[|order| - 1];
      assert order == front + [name];
      DeletionsDecide(env, w, ns, front);
      DeleteAllEffect(env, w, ns, front);
      LookupsSnoc(env, w, ns, front, name);
      LastDeletionDecides(env, w, DeleteAll(env, w, ns, front).world, ns, front, name);
    }
  }

  lemma LastDeletionDecides(env: Env, w: World, mid: World, ns: string, front: seq<string>, name: string)
    requires OnlyGone(w, mid) && w.live.Keys - mid.live.Keys <= Bearing(w.live, ns, front) && name !in front
    requires DeleteOne(env, mid, Key(ns, name)).ok
    ensures Bearing(DeleteOne(env, mid, Key(ns, name)).world.live, ns, front + [name]) == {} <==>
              Bearing(mid.live, ns, front) == {} && (Key(ns, name) in w.live ==> mid.calls !in env.faults)
  {
    var key := Key(ns, name);
    var last := DeleteOne(env, mid, key).world;
    assert key in mid.live <==> key in w.live by {
      assert key !in Bearing(w.live, ns, front);
    }
    assert forall n :: n in front + [name] <==> n in front || n == name;
    assert key in last.live <==> key in w.live && mid.calls in env.faults;
    forall k
      ensures k in Bearing(last.live, ns, front + [name]) <==>
                k in Bearing(mid.live, ns, front) || (k == key && k in last.live)
    {
    }
  }

  /** Looking the name's policy up fails among the deletions in this order. */
  predicate LookupFails(env: Env, w: World, ns: string, order: seq<string>, n: string) {
    exists j :: 0 <= j < |order| && order[j] == n && DeleteAll(env, w, ns, order[..j]).world.calls in env.faults
  }

  lemma LookupFailsSnoc(env: Env, w: World, ns: string, front: seq<string>, name: string, n: string)
    ensures LookupFails(env, w, ns, front + [name], n) <==>
              || LookupFails(env, w, ns, front, n)
              || (name == n && DeleteAll(env, w, ns, front).world.calls in env.faults)
  {
    var order := front + [name];
    assert order[..|front|] == front && order[|front|] == name;
    assert forall j :: 0 <= j < |front| ==> order[j] == front[j] && order[..j] == front[..j];
    if LookupFails(env, w, ns, front, n) {
      var j :| 0 <= j < |front| && front[j] == n && DeleteAll(env, w, ns, front[..j]).world.calls in env.faults;
      assert order[j] == n && order[..j] == front[..j];
    }
  }

  /** Deletions that end without an error leave a listed live policy exactly when its lookup fails. */
  lemma {:induction false} DeletionDecidesName(env: Env, w: World, ns: string, order: seq<string>, n: string)
    requires forall i, k :: 0 <= i < k < |order| ==> order[i] != order[k]
    requires DeleteAll(env, w, ns, order).ok
    ensures Key(ns, n) in DeleteAll(env, w, ns, order).world.live <==>
              Key(ns, n) in w.live && (n in order ==> LookupFails(env, w, ns, order, n))
    decreases |order|
  {
    if order != [] {
      var front, name := order[..|order| - 1], order[|order| - 1];
      assert order == front + [name];
      assert n in order <==> n in front || n == name;
      DeletionDecidesName(env, w, ns, front, n);
      LookupFailsSnoc(env, w, ns, front, name, n);
      if n !in front {
        NotListedIsNotLookedUp(env, w, ns, front, n);
      }
    }
  }

  lemma NotListedIsNotLookedUp(env: Env, w: World, ns: string, order: seq<string>, n: string)
    requires n !in order
    ensures !LookupFails(env, w, ns, order, n)
  {
  }

  // ------------------------------------------------------------------ the whole runs

  /** The namespace is converged and its loadable names are loaded. */
  predicate RunConverged(env: Env, w': World, ns: string, names: seq<string>) {
    && (forall n :: n in names && n in env.templates ==> n in w'.buffer)
    && Converged(w'.live, w'.buffer, ns, names)
  }

  predicate NoneLeft(w': World, ns: string, names: seq<string>) {
    forall n :: n in w'.buffer && n !in names ==> Key(ns, n) !in w'.live
  }

  lemma ExpectedStay(env: Env, mid: World, w': World, ns: string, names: seq<string>, err: bool)
    requires Deletes(env, mid, w', ns, names, err)
    ensures w'.buffer == mid.buffer
    ensures forall n :: n in names ==> Agree(mid.live, w'.live, Key(ns, n))
  {
    DeletesEffect(env, mid, w', ns, names, err);
    forall n | n in names
      ensures Agree(mid.live, w'.live, Key(ns, n))
    {
      assert Key(ns, n) !in Unexpected(mid, ns, names);
    }
  }

  lemma RunConvergedParts(env: Env, w: World, mid: World, w': World, ns: string, names: seq<string>)
    requires Grows(w.buffer, mid.buffer) && LoadsOnlyExpected(env, w, mid, names)
    requires w'.buffer == mid.buffer && forall n :: n in names ==> Agree(mid.live, w'.live, Key(ns, n))
    ensures RunConverged(env, w', ns, names) <==>
              && (forall n :: n in names && (n in w.buffer || n in env.templates) ==> NameRight(mid, ns, n))
              && NoneLeft(w', ns, names)
  {
    forall n | n in names
      ensures NameRight(mid, ns, n) <==> NameRight(w', ns, n)
      ensures n in w'.buffer ==> n in w.buffer || n in env.templates
    {
      assert Agree(mid.live, w'.live, Key(ns, n));
    }
  }

  lemma NoneLeftExactly(env: Env, mid: World, w': World, ns: string, names: seq<string>, order: seq<string>)
    requires Lists(order, Undesired(mid.buffer, names), true) && DeleteAll(env, mid, ns, order) == Outcome(w', true)
    ensures NoneLeft(w', ns, names) <==> LookupsSucceed(env, mid, ns, order)
  {
    DeletionsDecide(env, mid, ns, order);
    DeleteAllEffect(env, mid, ns, order);
    if NoneLeft(w', ns, names) {
      forall k: Key | k.namespace == ns && k.name in order
        ensures k !in w'.live
      {
        assert k == Key(ns, k.name) && k.name in Undesired(mid.buffer, names);
      }
    } else {
      var n :| n in w'.buffer && n !in names && Key(ns, n) in w'.live;
      assert n in Undesired(mid.buffer, names);
      assert Key(ns, n) in Bearing(w'.live, ns, order);
    }
  }

  /** The deletions ended without an error, and no lookup of a live policy failed among them. */
  ghost predicate DeletionsSucceed(env: Env, mid: World, w': World, ns: string, names: seq<string>) {
    exists order ::
      && Lists(order, Undesired(mid.buffer, names), true)
      && DeleteAll(env, mid, ns, order) == Outcome(w', true) && LookupsSucceed(env, mid, ns, order)
  }

  /**
   Exactly which failures a namespace handler run that ends without an error makes up for,
   with the lister in sync: every expected name that can be had has an occurrence whose load
   and write do not fail, and no lookup of a live surplus policy fails.
   */
  lemma NamespaceRunConvergesExactly(defaults: Defaults, env: Env, w: World, w': World, key: string)
    requires env.lister == w.live && BufferOk(w.buffer)
    requires key in env.namespacesLister && key !in defaults.excludes
    requires NamespaceHandled(defaults, env, w, w', key, false)
    ensures var names := Expected(defaults, env.namespacesLister[key]);
            var src := NetworkSetting(defaults, env.namespacesLister[key]).src;
            RunConverged(env, w', key, names) <==>
              && (forall n :: n in names && (n in w.buffer || n in env.templates) ==>
                    SomeSucceeds(env, w, key, names, src, n))
              && DeletionsSucceed(env, SyncNames(env, w, key, names, src), w', key, names)
  {
    var names := Expected(defaults, env.namespacesLister[key]);
    var src := NetworkSetting(defaults, env.namespacesLister[key]).src;
    var mid := SyncNames(env, w, key, names, src);
    SyncNamesSafe(env, w, key, names, src);
    ExpectedStay(env, mid, w', key, names, false);
    RunConvergedParts(env, w, mid, w', key, names);
    forall n | n in names
      ensures NameRight(mid, key, n) <==> SomeSucceeds(env, w, key, names, src, n)
    {
      LoopDecides(env, w, key, names, src, n);
    }
    forall order | Lists(order, Undesired(mid.buffer, names), true)
                   && DeleteAll(env, mid, key, order) == Outcome(w', true)
      ensures NoneLeft(w', key, names) <==> LookupsSucceed(env, mid, key, order)
    {
      NoneLeftExactly(env, mid, w', key, names, order);
    }
  }

  /** So that is exactly when such a run is one of those a controller heals from. */
  lemma NamespaceRunMendsExactly(fixed: Fixed, env: Env, s: System, move: Move, s': System)
    requires BufferOk(s.buffer) && Sees(fixed, env) && env.lister == s.live && StepBy(fixed, env, s, move, s')
    requires move.NamespaceMove? && Handled(fixed, move.key) && !move.err
    ensures var names, src := NamesOf(fixed, move.key), SourceOf(fixed, move.key);
            Mends(fixed, move, s') <==>
              && (forall n :: n in names && (n in s.buffer || n in fixed.templates) ==>
                    SomeSucceeds(env, Start(s), move.key, names, src, n))
              && DeletionsSucceed(env, SyncNames(env, Start(s), move.key, names, src), move.after, move.key, names)
  {
    NamespaceRunConvergesExactly(fixed.defaults, env, Start(s), move.after, move.key);
  }

  /**
   Exactly when a policy handler run that ends without an error leaves its expected policy
   as it should be, with the lister in sync: it was so before, or neither the namespace's
   lookup nor a needed load nor the write fails and every expected name resolves.
   */
  lemma PolicyRunMendsExactly(defaults: Defaults, env: Env, w: World, w': World, k: Key)
    requires env.lister == w.live && BufferOk(w.buffer)
    requires k.namespace != "" && '/' !in k.namespace && '/' !in k.name && k.namespace in env.namespaces
    requires PolicyHandled(defaults, env, w, w', KeyString(k), false)
    requires k.name in Expected(defaults, env.namespaces[k.namespace])
    ensures var loaded := LoadAll(env, Called(w), Expected(defaults, env.namespaces[k.namespace]));
            NameRight(w', k.namespace, k.name) <==>
              || (k.name in w'.buffer && k in w.live && !ReconcileIsNeeded(w.live[k], w'.buffer[k.name]))
              || (!Fails(env, w) && loaded.ok && loaded.world.calls !in env.faults)
  {
    KeyRoundTrip(k);
    assert k == Key(k.namespace, k.name);
    var setting := NetworkSetting(defaults, env.namespaces[k.namespace]);
    var names := Split(setting.value, DELIMITER);
    if !Fails(env, w) {
      var loaded := LoadAll(env, Called(w), names);
      var mid := SyncPolicy(env, Called(w), k.namespace, k.name, setting).world;
      LoadAllSafe(env, Called(w), names);
      if loaded.ok {
        WriteDecides(env, w, loaded.world, k.namespace, k.name, setting.src, false);
      }
      ExpectedStay(env, mid, w', k.namespace, names, false);
      assert Agree(mid.live, w'.live, k);
    }
  }

  /** The deletions ended without an error, and the lookup of the name did not fail among them. */
  ghost predicate LookedUp(env: Env, mid: World, w': World, ns: string, names: seq<string>, n: string) {
    exists order ::
      && Lists(order, Undesired(mid.buffer, names), true)
      && DeleteAll(env, mid, ns, order) == Outcome(w', true) && !LookupFails(env, mid, ns, order, n)
  }

  /**
   Exactly when a policy handler run that ends without an error has removed its unexpected
   buffered policy: it was not there, or looking it up did not fail. A run whose lookup of the
   namespace fails does nothing.
   */
  lemma PolicyRunRemovesExactly(defaults: Defaults, env: Env, w: World, w': World, k: Key)
    requires BufferOk(w.buffer)
    requires k.namespace != "" && '/' !in k.namespace && '/' !in k.name && k.namespace in env.namespaces
    requires PolicyHandled(defaults, env, w, w', KeyString(k), false)
    requires k.name in w'.buffer && k.name !in Expected(defaults, env.namespaces[k.namespace])
    ensures var setting := NetworkSetting(defaults, env.namespaces[k.namespace]);
            var mid := SyncPolicy(env, Called(w), k.namespace, k.name, setting).world;
            k !in w'.live <==>
              || k !in w.live
              || (!Fails(env, w)
                  && LookedUp(env, mid, w', k.namespace, Expected(defaults, env.namespaces[k.namespace]), k.name))
  {
    KeyRoundTrip(k);
    assert k == Key(k.namespace, k.name);
    var setting := NetworkSetting(defaults, env.namespaces[k.namespace]);
    var names := Split(setting.value, DELIMITER);
    if !Fails(env, w) {
      var mid := SyncPolicy(env, Called(w), k.namespace, k.name, setting).world;
      SyncPolicySafe(env, Called(w), k.namespace, k.name, setting);
      DeletesEffect(env, mid, w', k.namespace, names, false);
      assert k in mid.live <==> k in w.live;
      forall order | Lists(order, Undesired(mid.buffer, names), true)
                     && DeleteAll(env, mid, k.namespace, order) == Outcome(w', true)
        ensures k !in w'.live <==> k !in mid.live || !LookupFails(env, mid, k.namespace, order, k.name)
      {
        DeletionDecidesName(env, mid, k.namespace, order, k.name);
      }
    }
  }

  // -------------------------------------------------------------- what gets lost for good

  /** A start from which a step without an error ends unconverged with nothing left to do. */
  ghost predicate LostForGood(fixed: Fixed, s: System, env: Env, move: Move, s': System) {
    && Starts(fixed, s) && NoStrays(fixed, s)
    && Sees(fixed, env) && env.lister == s.live && StepBy(fixed, env, s, move, s')
    && !move.err && Idle(s') && !AllConverged(fixed, s')
  }

  /**
   One failing creation is enough: it is logged, the run ends without an error, and nothing
   queues the namespace again.
   */
  lemma FailureCanBeLost(ns: string, spec: Spec) returns (fixed: Fixed, s: System, env: Env, move: Move, s': System)
    requires ns != "" && '/' !in ns
    ensures env.faults == {0} && LostForGood(fixed, s, env, move, s')
  {
    var namespaces := map[ns := Namespace(ns, map[])];
    fixed := Fixed(Defaults(true, "p", []), map["p" := spec], namespaces);
    s := System(map[], map["p" := Template("p", spec)], {}, {ns});
    env := InSync(fixed, s.live).(faults := {0});
    SplitOne("p", DELIMITER);
    var names := NamesOf(fixed, ns);
    assert names == ["p"];
    var after := SyncNames(env, Start(s), ns, names, SourceOf(fixed, ns));
    CreationFails(env, Start(s), ns, "p", SourceOf(fixed, ns));
    NothingToDelete(env, after, ns, names);
    move := NamespaceMove(ns, after, false);
    s' := System(after.live, after.buffer, {}, {});
    assert Keys({}) == {};
    StartsReady(fixed, s);
    assert !ConvergedAt(fixed, s', ns);
  }

  lemma CreationFails(env: Env, w: World, ns: string, n: string, src: string)
    requires n in w.buffer && Key(ns, n) !in env.lister && w.calls in env.faults
    ensures SyncNames(env, w, ns, [n], src) == Called(w)
  {
    assert [n][..0] == [];
    assert SyncNames(env, w, ns, [], src) == w;
  }

  lemma NothingToDelete(env: Env, w: World, ns: string, names: seq<string>)
    requires forall n :: n in w.buffer ==> n in names
    ensures Deletes(env, w, w, ns, names, false)
  {
    assert Lists([], Undesired(w.buffer, names), true) && DeleteAll(env, w, ns, []) == Outcome(w, true);
  }
}
