/**
 Laws of one run of a network-policy handler that hold whatever fails: what it never
 touches, and what it never forgets.
 */
module NetworkPolicyLaws {
  import opened Text
  import opened Resources
  import opened ObjectKeys
  import opened NetworkPolicies

  // ------------------------------------------------------------- the template buffer

  /** Every template carries its key as its name, and neither a namespace nor annotations. */
  predicate BufferOk(buffer: Buffer) {
    forall n :: n in buffer ==> buffer[n].name == n && buffer[n].namespace == "" && buffer[n].annotations == map[]
  }

  /** Nothing is forgotten or changed. */
  predicate Grows(before: Buffer, after: Buffer) {
    forall n :: n in before ==> n in after && after[n] == before[n]
  }

  // ------------------------------------------- safety, whatever fails or is out of date

  /**
   The policy is one the controller writes from the template of its name: without
   annotations, or with its own one.
   */
  predicate FromTemplate(policy: Policy, buffer: Buffer, key: Key, src: string)
    requires key.name in buffer
  {
    && policy.name == key.name && policy.namespace == key.namespace && policy.spec == buffer[key.name].spec
    && (policy.annotations == map[]
        || policy.annotations == map["karydia.gardener.cloud/networkPolicy.internal" := src + "/" + key.name])
  }

  /** Policies that are new or different are expected, buffered ones of this namespace, written from their template. */
  predicate WritesOnlyExpected(w: World, w': World, ns: string, names: seq<string>, src: string) {
    forall k :: k in w'.live ==>
      (k in w.live && w'.live[k] == w.live[k])
      || (k.namespace == ns && k.name in names && k.name in w'.buffer && FromTemplate(w'.live[k], w'.buffer, k, src))
  }

  /** Policies that are gone were buffered, unexpected ones of this namespace. */
  predicate RemovesOnlyUnexpected(w: World, w': World, ns: string, names: seq<string>) {
    forall k :: k in w.live && k !in w'.live ==> k.namespace == ns && k.name in w'.buffer && k.name !in names
  }

  /** Templates that are new in the buffer are expected ones that exist. */
  predicate LoadsOnlyExpected(env: Env, w: World, w': World, names: seq<string>) {
    forall n :: n in w'.buffer ==>
      n in w.buffer || (n in names && n in env.templates && w'.buffer[n].spec == env.templates[n])
  }

  predicate RaisesOnlyIn(w: World, w': World, ns: string) {
    forall k :: k in w'.raised ==> k in w.raised || k.namespace == ns
  }

  predicate Safe(env: Env, w: World, w': World, ns: string, names: seq<string>, src: string) {
    && BufferOk(w'.buffer)
    && Grows(w.buffer, w'.buffer)
    && LoadsOnlyExpected(env, w, w', names)
    && RaisesOnlyIn(w, w', ns)
    && WritesOnlyExpected(w, w', ns, names, src)
    && RemovesOnlyUnexpected(w, w', ns, names)
  }

  lemma SyncBufferedSafe(env: Env, w: World, ns: string, name: string, src: string)
    requires BufferOk(w.buffer) && name in w.buffer
    ensures var w' := SyncBuffered(env, w, ns, name, src).world;
            && w'.buffer == w.buffer
            && w.live.Keys <= w'.live.Keys
            && RaisesOnlyIn(w, w', ns)
            && forall k :: k in w'.live ==>
                 (k in w.live && w'.live[k] == w.live[k])
                 || (k == Key(ns, name) && FromTemplate(w'.live[k], w'.buffer, k, src))
  {
  }

  /** The loop over the names is safe and deletes nothing. */
  lemma {:induction false} SyncNamesSafe(env: Env, w: World, ns: string, names: seq<string>, src: string)
    requires BufferOk(w.buffer)
    ensures var w' := SyncNames(env, w, ns, names, src);
            Safe(env, w, w', ns, names, src) && w.live.Keys <= w'.live.Keys
    decreases |names|
  {
    if names != [] {
      var front, name := names[..|names| - 1], names[|names| - 1];
      assert front + [name] == names;
      SyncNamesSafe(env, w, ns, front, src);
      SyncNameSafe(env, w, SyncNames(env, w, ns, front, src), ns, front, name, src);
    }
  }

  lemma SyncNameSafe(env: Env, w: World, mid: World, ns: string, front: seq<string>, name: string, src: string)
    requires Safe(env, w, mid, ns, front, src) && w.live.Keys <= mid.live.Keys
    ensures var w' := SyncName(env, mid, ns, name, src).world;
            Safe(env, w, w', ns, front + [name], src) && w.live.Keys <= w'.live.Keys
  {
    var names := front + [name];
    assert forall n :: n in names <==> n in front || n == name;
    var ready := if name in mid.buffer then mid else Load(env, mid, name).world;
    LoadStaysSafe(env, w, mid, ns, names, name, src);
    if name in ready.buffer {
      SyncBufferedStaysSafe(env, w, ready, ns, names, name, src);
    }
  }

  lemma LoadStaysSafe(env: Env, w: World, mid: World, ns: string, names: seq<string>, name: string, src: string)
    requires Safe(env, w, mid, ns, names, src) && name in names
    ensures name !in mid.buffer ==> Safe(env, w, Load(env, mid, name).world, ns, names, src)
  {
  }

  lemma SyncBufferedStaysSafe(env: Env, w: World, mid: World, ns: string, names: seq<string>, name: string, src: string)
    requires Safe(env, w, mid, ns, names, src) && w.live.Keys <= mid.live.Keys
    requires name in names && name in mid.buffer
    ensures var w' := SyncBuffered(env, mid, ns, name, src).world;
            Safe(env, w, w', ns, names, src) && w.live.Keys <= w'.live.Keys
  {
    SyncBufferedSafe(env, mid, ns, name, src);
  }

  // ------------------------------------------------------------ the loop that loads

  predicate AllResolvable(templates: map<string, Spec>, buffer: Buffer, names: seq<string>) {
    forall n :: n in names ==> n in buffer || n in templates
  }

  /** How many names come before the first one that neither is buffered nor has a template. */
  function ResolvableUpTo(templates: map<string, Spec>, buffer: Buffer, names: seq<string>): (i: nat)
    ensures i <= |names| && AllResolvable(templates, buffer, names[..i])
    ensures i < |names| ==> names[i] !in buffer && names[i] !in templates
    decreases |names|
  {
    if names == [] then 0
    else
      var n := |names| - 1;
      var i := ResolvableUpTo(templates, buffer, names[..n]);
      assert names[..n][..i] == names[..i];
      assert forall m :: m in names ==> m in names[..n] || m == names[n];
      assert names[..n + 1] == names;
      if i < n then i else if names[n] in buffer || names[n] in templates then n + 1 else n
  }

  /** The names that the loading loop of the policy handler gets to load. */
  function Reached(templates: map<string, Spec>, buffer: Buffer, names: seq<string>): seq<string> {
    names[..ResolvableUpTo(templates, buffer, names)]
  }

  lemma ReachedAll(templates: map<string, Spec>, buffer: Buffer, names: seq<string>)
    ensures AllResolvable(templates, buffer, names) <==> ResolvableUpTo(templates, buffer, names) == |names|
    ensures AllResolvable(templates, buffer, names) ==> Reached(templates, buffer, names) == names
  {
    var i := ResolvableUpTo(templates, buffer, names);
    assert names[..|names|] == names;
    if i < |names| {
      assert names[i] in names;
    }
  }

  lemma ReachedSnoc(templates: map<string, Spec>, buffer: Buffer, front: seq<string>, name: string)
    ensures Reached(templates, buffer, front + [name]) ==
            if AllResolvable(templates, buffer, front + [name]) then front + [name]
            else Reached(templates, buffer, front)
  {
    var names := front + [name];
    assert names[..|names| - 1] == front;
    assert forall n :: n in names <==> n in front || n == name;
    ReachedAll(templates, buffer, front);
    ReachedAll(templates, buffer, names);
    assert names[..ResolvableUpTo(templates, buffer, front)] == front[..ResolvableUpTo(templates, buffer, front)];
  }

  /** The loop loads no name that comes after one it cannot resolve, and nothing else but templates. */
  lemma {:induction false} LoadAllSafe(env: Env, w: World, names: seq<string>)
    requires BufferOk(w.buffer)
    ensures var r := LoadAll(env, w, names);
            && BufferOk(r.world.buffer) && Grows(w.buffer, r.world.buffer)
            && LoadsOnlyExpected(env, w, r.world, Reached(env.templates, w.buffer, names))
            && (r.ok ==> AllResolvable(env.templates, w.buffer, names))
            && r.world.live == w.live && r.world.raised == w.raised
    decreases |names|
  {
    if names != [] {
      var front, name := names[..|names| - 1], names[|names| - 1];
      assert names == front + [name];
      assert forall n :: n in names <==> n in front || n == name;
      LoadAllSafe(env, w, front);
      ReachedAll(env.templates, w.buffer, front);
      ReachedSnoc(env.templates, w.buffer, front, name);
      var mid := LoadAll(env, w, front);
      if mid.ok && name !in mid.world.buffer {
        LoadNextSafe(env, w, mid.world, front, name);
      }
    }
  }

  lemma LoadNextSafe(env: Env, w: World, mid: World, front: seq<string>, name: string)
    requires BufferOk(mid.buffer) && Grows(w.buffer, mid.buffer) && name !in mid.buffer
    requires AllResolvable(env.templates, w.buffer, front) && LoadsOnlyExpected(env, w, mid, front)
    ensures var r := Load(env, mid, name);
            && BufferOk(r.world.buffer) && Grows(w.buffer, r.world.buffer)
            && LoadsOnlyExpected(env, w, r.world, if r.ok then front + [name] else front)
            && (r.ok ==> name in env.templates)
  {
    assert forall n :: n in front + [name] <==> n in front || n == name;
  }

  lemma SyncPolicySafe(env: Env, w: World, ns: string, name: string, setting: Setting)
    requires BufferOk(w.buffer)
    ensures var w' := SyncPolicy(env, w, ns, name, setting).world;
            var names := Split(setting.value, DELIMITER);
            && Safe(env, w, w', ns, names, setting.src) && w.live.Keys <= w'.live.Keys
            && LoadsOnlyExpected(env, w, w', Reached(env.templates, w.buffer, names))
  {
    var names := Split(setting.value, DELIMITER);
    var loaded := LoadAll(env, w, names);
    LoadAllSafe(env, w, names);
    assert forall n :: n in Reached(env.templates, w.buffer, names) ==> n in names;
    if loaded.ok && name in names {
      SyncBufferedSafe(env, loaded.world, ns, name, setting.src);
    }
  }

  /** In the policy handler the name guard never decides: an expected name it reaches is its template's name. */
  lemma NameGuardIsAlwaysTrue(env: Env, w: World, names: seq<string>, name: string)
    requires BufferOk(w.buffer)
    requires LoadAll(env, w, names).ok && name in names
    ensures LoadAll(env, w, names).world.buffer[name].name == name
  {
    LoadAllSafe(env, w, names);
  }

  // ------------------------------------------------------------------- the deletions

  /** The live policies of the namespace with one of these names. */
  function Bearing(live: Store, ns: string, names: seq<string>): set<Key> {
    set k | k in live && k.namespace == ns && k.name in names
  }

  /** What the deletions of the names did: policies are gone, each with an event, and nothing else has changed. */
  predicate OnlyGone(w: World, w': World) {
    && w'.buffer == w.buffer
    && w'.live.Keys <= w.live.Keys
    && (forall k :: k in w'.live ==> w'.live[k] == w.live[k])
    && w'.raised == w.raised + (w.live.Keys - w'.live.Keys)
    && w'.calls >= w.calls
  }

  lemma DeleteOneEffect(env: Env, w: World, key: Key)
    ensures var r := DeleteOne(env, w, key);
            && OnlyGone(w, r.world)
            && w.live.Keys - r.world.live.Keys <= {key}
            && (!r.ok ==> r.world.calls - 1 in Faults(env, w, r.world))
            && (r.ok && key in r.world.live ==> w.calls in Faults(env, w, r.world))
  {
    assert key in w.live ==> w.live.Keys - (w.live - {key}).Keys == {key};
  }

  /** A deletion run removes only the listed names, and misses no more of them than it had failing calls. */
  lemma {:induction false} DeleteAllEffect(env: Env, w: World, ns: string, order: seq<string>)
    ensures var r := DeleteAll(env, w, ns, order);
            && OnlyGone(w, r.world)
            && w.live.Keys - r.world.live.Keys <= Bearing(w.live, ns, order)
            && (!r.ok ==> r.world.calls - 1 in Faults(env, w, r.world))
            && (r.ok ==> |Bearing(r.world.live, ns, order)| <= |Faults(env, w, r.world)|)
    decreases |order|
  {
    if order != [] {
      var front, name := order[..|order| - 1], order[|order| - 1];
      assert order == front + [name];
      DeleteAllEffect(env, w, ns, front);
      var mid := DeleteAll(env, w, ns, front);
      assert forall n :: n in front ==> n in order;
      if mid.ok {
        DeleteOneEffect(env, mid.world, Key(ns, name));
        DeleteNextEffect(env, w, mid.world, ns, front, name);
      }
    }
  }

  lemma DeleteNextEffect(env: Env, w: World, mid: World, ns: string, front: seq<string>, name: string)
    requires OnlyGone(w, mid) && w.live.Keys - mid.live.Keys <= Bearing(w.live, ns, front)
    requires |Bearing(mid.live, ns, front)| <= |Faults(env, w, mid)|
    ensures var r := DeleteOne(env, mid, Key(ns, name));
            && OnlyGone(w, r.world)
            && w.live.Keys - r.world.live.Keys <= Bearing(w.live, ns, front + [name])
            && (!r.ok ==> r.world.calls - 1 in Faults(env, w, r.world))
            && (r.ok ==> |Bearing(r.world.live, ns, front + [name])| <= |Faults(env, w, r.world)|)
  {
    var key := Key(ns, name);
    var next := DeleteOne(env, mid, key).world;
    DeleteOneEffect(env, mid, key);
    GoneInTwo(w, mid, next);
    assert forall n :: n in front + [name] <==> n in front || n == name;
    if DeleteOne(env, mid, key).ok {
      MissedNext(env, w, mid, next, ns, front, name);
    }
  }

  lemma GoneInTwo(w: World, mid: World, next: World)
    requires OnlyGone(w, mid) && OnlyGone(mid, next)
    ensures OnlyGone(w, next)
    ensures w.live.Keys - next.live.Keys == (w.live.Keys - mid.live.Keys) + (mid.live.Keys - next.live.Keys)
  {
  }

  lemma MissedNext(env: Env, w: World, mid: World, next: World, ns: string, front: seq<string>, name: string)
    requires w.calls <= mid.calls <= next.calls && next.live.Keys <= mid.live.Keys
    requires Key(ns, name) in next.live ==> mid.calls in Faults(env, mid, next)
    requires |Bearing(mid.live, ns, front)| <= |Faults(env, w, mid)|
    ensures |Bearing(next.live, ns, front + [name])| <= |Faults(env, w, next)|
  {
    var key := Key(ns, name);
    var missed, before := Bearing(next.live, ns, front + [name]), Bearing(mid.live, ns, front);
    forall k | k in missed
      ensures k in before || k == key
    {
      assert k.name in front || k.name == name;
    }
    if key in next.live {
      Smaller(missed, before + {key});
      Smaller(Faults(env, w, mid) + {mid.calls}, Faults(env, w, next));
    } else {
      Smaller(missed, before);
      Smaller(Faults(env, w, mid), Faults(env, w, next));
    }
  }

  lemma {:induction false} Smaller<T>(a: set<T>, b: set<T>)
    requires a <= b
    ensures |a| <= |b|
  {
    if a != {} {
      var x :| x in a;
      Smaller(a - {x}, b - {x});
    }
  }

  /**
   Whatever the order and the failures: only unexpected policies of the namespace go, an
   error is a failing last deletion, and without one at most as many unexpected policies
   remain as lookups failed.
   */
  predicate DeletionEffect(env: Env, w: World, w': World, ns: string, names: seq<string>, err: bool) {
    && OnlyGone(w, w')
    && w.live.Keys - w'.live.Keys <= Unexpected(w, ns, names)
    && (err ==> w'.calls - 1 in Faults(env, w, w'))
    && (!err ==> |Unexpected(w', ns, names)| <= |Faults(env, w, w')|)
    && (Faults(env, w, w') == {} ==> w.live.Keys - w'.live.Keys == Unexpected(w, ns, names))
  }

  lemma DeletesEffect(env: Env, w: World, w': World, ns: string, names: seq<string>, err: bool)
    requires Deletes(env, w, w', ns, names, err)
    ensures DeletionEffect(env, w, w', ns, names, err)
  {
    var order :| Lists(order, Undesired(w.buffer, names), !err) && DeleteAll(env, w, ns, order) == Outcome(w', !err);
    DeleteAllEffect(env, w, ns, order);
    assert forall k :: k in Bearing(w.live, ns, order) ==> k in Unexpected(w, ns, names);
    if !err {
      assert Unexpected(w', ns, names) == Bearing(w'.live, ns, order);
    }
    if Faults(env, w, w') == {} {
      assert Unexpected(w', ns, names) == {};
      forall k | k in Unexpected(w, ns, names)
        ensures k in w.live.Keys - w'.live.Keys
      {
        assert k !in Unexpected(w', ns, names);
      }
    }
  }

  /** Without failing calls, exactly the unexpected policies go, whatever the order. */
  lemma DeletesCleanly(env: Env, w: World, w': World, ns: string, names: seq<string>, err: bool)
    requires env.faults == {} && Deletes(env, w, w', ns, names, err)
    ensures !err && w'.buffer == w.buffer
    ensures forall k :: k in w'.live <==> k in w.live && k !in Unexpected(w, ns, names)
    ensures forall k :: k in w'.live ==> w'.live[k] == w.live[k]
    ensures w'.raised == w.raised + Unexpected(w, ns, names)
  {
    DeletesEffect(env, w, w', ns, names, err);
    assert Faults(env, w, w') == {};
    assert w.live.Keys - w'.live.Keys == Unexpected(w, ns, names);
    assert forall k :: k in w.live && k !in Unexpected(w, ns, names) ==> k !in w.live.Keys - w'.live.Keys;
  }

  /** Without failing calls the deletions are possible. */
  lemma DeletionPossible(env: Env, w: World, ns: string, names: seq<string>) returns (w': World)
    requires env.faults == {}
    ensures Deletes(env, w, w', ns, names, false)
  {
    var order := Listing(Undesired(w.buffer, names));
    DeleteAllEffect(env, w, ns, order);
    w' := DeleteAll(env, w, ns, order).world;
  }

  lemma {:induction false} Listing(names: set<string>) returns (order: seq<string>)
    ensures Lists(order, names, true)
  {
    order := [];
    if names != {} {
      var n :| n in names;
      var rest := Listing(names - {n});
      order := rest + [n];
    }
  }

  lemma DeletesSafe(env: Env, w: World, mid: World, w': World, ns: string, names: seq<string>, src: string, err: bool)
    requires Safe(env, w, mid, ns, names, src) && w.live.Keys <= mid.live.Keys
    requires Deletes(env, mid, w', ns, names, err)
    ensures Safe(env, w, w', ns, names, src)
  {
    DeletesEffect(env, mid, w', ns, names, err);
    forall k | k in w.live && k !in w'.live
      ensures k.namespace == ns && k.name in w'.buffer && k.name !in names
    {
      assert k in mid.live.Keys - w'.live.Keys;
    }
  }

  /** Without API errors the deletion loop's order, which the map iteration leaves open, makes no difference. */
  lemma DeletionOrderIrrelevant(env: Env, w: World, w1: World, w2: World, ns: string, names: seq<string>,
                                err1: bool, err2: bool)
    requires env.faults == {}
    requires Deletes(env, w, w1, ns, names, err1) && Deletes(env, w, w2, ns, names, err2)
    ensures w1.live == w2.live && w1.raised == w2.raised && err1 == err2 == false
    ensures forall k :: k in w.live && k.name in names ==> k in w1.live
  {
    DeletesCleanly(env, w, w1, ns, names, err1);
    DeletesCleanly(env, w, w2, ns, names, err2);
  }

  /**
   Whatever API calls fail and however old the caches are, a namespace handler run writes
   only expected, buffered policies of that namespace from their templates, and removes
   only buffered, unexpected ones.
   */
  lemma NamespaceHandlerIsSafe(defaults: Defaults, env: Env, w: World, w': World, key: string, err: bool)
    requires BufferOk(w.buffer)
    requires NamespaceHandled(defaults, env, w, w', key, err)
    ensures key in env.namespacesLister && key !in defaults.excludes ==>
              Safe(env, w, w', key, Expected(defaults, env.namespacesLister[key]),
                   NetworkSetting(defaults, env.namespacesLister[key]).src)
    ensures key !in env.namespacesLister || key in defaults.excludes ==> w' == w
    ensures BufferOk(w'.buffer) && Grows(w.buffer, w'.buffer)
  {
    if key in env.namespacesLister && key !in defaults.excludes {
      var ns := env.namespacesLister[key];
      var names, src := Expected(defaults, ns), NetworkSetting(defaults, ns).src;
      SyncNamesSafe(env, w, key, names, src);
      DeletesSafe(env, w, SyncNames(env, w, key, names, src), w', key, names, src, err);
    }
  }

  /** The same for a policy handler run; a malformed key, a missing namespace or a failing lookup ends it at once. */
  lemma PolicyHandlerIsSafe(defaults: Defaults, env: Env, w: World, w': World, key: string, err: bool)
    requires BufferOk(w.buffer)
    requires PolicyHandled(defaults, env, w, w', key, err)
    ensures BufferOk(w'.buffer) && Grows(w.buffer, w'.buffer)
    ensures SplitKey(key).Some? && SplitKey(key).value.namespace in env.namespaces ==>
              var names := Expected(defaults, env.namespaces[SplitKey(key).value.namespace]);
              LoadsOnlyExpected(env, w, w', Reached(env.templates, w.buffer, names))
    ensures if SplitKey(key).None? || Fails(env, w) || SplitKey(key).value.namespace !in env.namespaces
            then w'.live == w.live && w'.buffer == w.buffer && w'.raised == w.raised && !err
            else
              var ns := SplitKey(key).value.namespace;
              var setting := NetworkSetting(defaults, env.namespaces[ns]);
              Safe(env, w, w', ns, Split(setting.value, DELIMITER), setting.src)
  {
    if SplitKey(key).Some? {
      var k := SplitKey(key).value;
      if !Fails(env, w) && k.namespace in env.namespaces {
        var setting := NetworkSetting(defaults, env.namespaces[k.namespace]);
        var names := Split(setting.value, DELIMITER);
        var synced := SyncPolicy(env, Called(w), k.namespace, k.name, setting).world;
        SyncPolicySafe(env, Called(w), k.namespace, k.name, setting);
        DeletesSafe(env, Called(w), synced, w', k.namespace, names, setting.src, err);
        DeletesEffect(env, synced, w', k.namespace, names, err);
      }
    }
  }
}
