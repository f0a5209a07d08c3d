/**
 What a handler run reaches when no API call fails and the policy lister is in sync:
 convergence of a namespace, idempotence, repair after an outside change, and which
 handler runs commute.
 */
module NetworkPolicyConvergence {
  import opened Results
  import opened Text
  import opened Resources
  import opened ObjectKeys
  import opened NetworkPolicies
  import opened NetworkPolicyLaws

  // ------------------------------------------------------------ declarative results

  /** The buffer after loading every loadable name. */
  function Resolved(templates: map<string, Spec>, buffer: Buffer, names: seq<string>): Buffer {
    map n | n in buffer.Keys + (set m | m in names && m in templates) ::
      if n in buffer then buffer[n] else Template(n, templates[n])
  }

  predicate Managed(buffer: Buffer, ns: string, names: seq<string>, k: Key) {
    k.namespace == ns && k.name in names && k.name in buffer
  }

  /**
   What a managed policy becomes: kept when its spec is right, else the bare template, and
   labelled when it is new.
   */
  function Goal(live: Store, buffer: Buffer, src: string, k: Key): Policy
    requires k.name in buffer
  {
    if k !in live then Labelled(buffer[k.name], k.namespace, k.name, src)
    else if ReconcileIsNeeded(live[k], buffer[k.name]) then Bare(buffer[k.name], k.namespace)
    else live[k]
  }

  function Stale(live: Store, buffer: Buffer, ns: string, names: seq<string>): set<Key> {
    set k | k in live && Managed(buffer, ns, names, k) && ReconcileIsNeeded(live[k], buffer[k.name])
  }

  /** Live policies of the namespace that are not as they should be: stale ones and unexpected buffered ones. */
  function Deviating(live: Store, buffer: Buffer, ns: string, names: seq<string>): set<Key> {
    set k | k in live && k.namespace == ns && k.name in buffer
            && (k.name in names ==> ReconcileIsNeeded(live[k], buffer[k.name]))
  }

  /** Exactly what the live policies are after the namespace has been reconciled. */
  ghost predicate Reconciled(live: Store, live': Store, buffer: Buffer, ns: string, names: seq<string>, src: string) {
    && (forall k :: k in live' <==>
          Managed(buffer, ns, names, k) || (k in live && !(k.namespace == ns && k.name in buffer)))
    && (forall k :: k in live' ==>
          live'[k] == if Managed(buffer, ns, names, k) then Goal(live, buffer, src, k) else live[k])
  }

  /** Every expected buffered name is live with the buffered spec; no other buffered name is live. */
  predicate Converged(live: Store, buffer: Buffer, ns: string, names: seq<string>) {
    && (forall n :: n in names && n in buffer ==>
          Key(ns, n) in live && live[Key(ns, n)].spec.wire == buffer[n].spec.wire)
    && (forall n :: n in buffer && n !in names ==> Key(ns, n) !in live)
  }

  // ---------------------------------------------------------- the loop over the names

  /** The loop's effect on a prefix of the names, against the live policies the lister shows. */
  ghost predicate NamesSynced(live: Store, w: World, w': World, templates: map<string, Spec>, ns: string,
                              names: seq<string>,
                        src: string) {
    && w'.buffer == Resolved(templates, w.buffer, names)
    && BufferOk(w'.buffer)
    && w'.raised == w.raised + Stale(live, w'.buffer, ns, names)
    && (forall k :: k in w'.live <==> k in live || Managed(w'.buffer, ns, names, k))
    && (forall k :: k in w'.live ==>
          w'.live[k] == if Managed(w'.buffer, ns, names, k) then Goal(live, w'.buffer, src, k) else live[k])
  }

  lemma ResolvedSnoc(templates: map<string, Spec>, buffer: Buffer, names: seq<string>, name: string)
    ensures var front := Resolved(templates, buffer, names);
            Resolved(templates, buffer, names + [name]) ==
            if name in front || name !in templates then front else front[name := Template(name, templates[name])]
  {
    var all := names + [name];
    assert forall n :: n in all <==> n in names || n == name;
  }

  /** Handling one more buffered name; a name handled before is left as it is. */
  lemma SyncBufferedStep(env: Env, w0: World, w: World, ns: string, front: seq<string>, name: string, src: string)
    requires env.faults == {} && env.lister == w0.live
    requires name in w.buffer && BufferOk(w.buffer)
    requires w.raised == w0.raised + Stale(w0.live, w.buffer, ns, front)
    requires forall k :: k in w.live <==> k in w0.live || Managed(w.buffer, ns, front, k)
    requires forall k :: k in w.live ==>
               w.live[k] == if Managed(w.buffer, ns, front, k) then Goal(w0.live, w.buffer, src, k) else w0.live[k]
    ensures var w' := SyncBuffered(env, w, ns, name, src).world;
            var names := front + [name];
            && w'.buffer == w.buffer
            && w'.raised == w0.raised + Stale(w0.live, w.buffer, ns, names)
            && (forall k :: k in w'.live <==> k in w0.live || Managed(w.buffer, ns, names, k))
            && (forall k :: k in w'.live ==>
                 w'.live[k] == if Managed(w.buffer, ns, names, k) then Goal(w0.live, w.buffer, src, k) else w0.live[k])
  {
    var names := front + [name];
    var key := Key(ns, name);
    assert w.buffer[name].name == name;
    assert forall n :: n in names <==> n in front || n == name;
    assert forall k :: Managed(w.buffer, ns, names, k) <==> Managed(w.buffer, ns, front, k) || k == key;
    var stale := if key in w0.live && ReconcileIsNeeded(w0.live[key], w.buffer[name]) then {key} else {};
    assert Stale(w0.live, w.buffer, ns, names) == Stale(w0.live, w.buffer, ns, front) + stale;
  }

  /** Loading a name into the buffer changes nothing for names that were already handled. */
  lemma LoadKeepsHandled(live: Store, buffer: Buffer, buffer': Buffer, ns: string, front: seq<string>, name: string)
    requires name !in buffer && name !in front
    requires name in buffer' && buffer' == buffer[name := buffer'[name]]
    ensures forall k :: Managed(buffer', ns, front, k) <==> Managed(buffer, ns, front, k)
    ensures Stale(live, buffer', ns, front) == Stale(live, buffer, ns, front)
  {
  }

  /** A handled name that is not buffered cannot be loaded, so loading never concerns a handled name. */
  lemma HandledIsResolved(templates: map<string, Spec>, buffer: Buffer, front: seq<string>, name: string)
    requires name !in Resolved(templates, buffer, front) && name in templates
    ensures name !in front
  {
  }

  lemma BufferedNameCloses(env: Env, w0: World, mid: World, ns: string, front: seq<string>, name: string, src: string)
    requires env.faults == {} && env.lister == w0.live
    requires NamesSynced(w0.live, w0, mid, env.templates, ns, front, src) && name in mid.buffer
    ensures NamesSynced(w0.live, w0, SyncName(env, mid, ns, name, src).world, env.templates, ns, front + [name], src)
  {
    ResolvedSnoc(env.templates, w0.buffer, front, name);
    SyncBufferedStep(env, w0, mid, ns, front, name, src);
  }

  lemma LoadedNameCloses(env: Env, w0: World, mid: World, ns: string, front: seq<string>, name: string, src: string)
    requires env.faults == {} && env.lister == w0.live
    requires NamesSynced(w0.live, w0, mid, env.templates, ns, front, src)
    requires name !in mid.buffer && name in env.templates
    ensures NamesSynced(w0.live, w0, SyncName(env, mid, ns, name, src).world, env.templates, ns, front + [name], src)
  {
    var loaded := Load(env, mid, name).world;
    ResolvedSnoc(env.templates, w0.buffer, front, name);
    HandledIsResolved(env.templates, w0.buffer, front, name);
    LoadKeepsHandled(w0.live, mid.buffer, loaded.buffer, ns, front, name);
    GoalKept(w0.live, mid.buffer, loaded.buffer, ns, front, name, src);
    SyncBufferedStep(env, w0, loaded, ns, front, name, src);
  }

  lemma GoalKept(live: Store, buffer: Buffer, buffer': Buffer, ns: string, front: seq<string>, name: string,
                 src: string)
    requires name !in buffer && name !in front
    requires name in buffer' && buffer' == buffer[name := buffer'[name]]
    ensures forall k :: Managed(buffer, ns, front, k) ==>
              k.name in buffer' && Goal(live, buffer', src, k) == Goal(live, buffer, src, k)
  {
  }

  lemma SkippedNameCloses(env: Env, w0: World, mid: World, ns: string, front: seq<string>, name: string, src: string)
    requires env.faults == {}
    requires NamesSynced(w0.live, w0, mid, env.templates, ns, front, src)
    requires name !in mid.buffer && name !in env.templates
    ensures NamesSynced(w0.live, w0, SyncName(env, mid, ns, name, src).world, env.templates, ns, front + [name], src)
  {
    var names := front + [name];
    ResolvedSnoc(env.templates, w0.buffer, front, name);
    assert forall n :: n in names <==> n in front || n == name;
    assert forall k :: Managed(mid.buffer, ns, names, k) <==> Managed(mid.buffer, ns, front, k);
    assert Stale(w0.live, mid.buffer, ns, names) == Stale(w0.live, mid.buffer, ns, front);
  }

  lemma {:induction false} SyncNamesCloses(env: Env, w: World, ns: string, names: seq<string>, src: string)
    requires env.faults == {} && env.lister == w.live && BufferOk(w.buffer)
    ensures NamesSynced(w.live, w, SyncNames(env, w, ns, names, src), env.templates, ns, names, src)
    decreases |names|
  {
    if names == [] {
      assert Resolved(env.templates, w.buffer, []) == w.buffer;
      assert Stale(w.live, w.buffer, ns, []) == {};
    } else {
      var front, name := names[..|names| - 1], names[|names| - 1];
      assert front + [name] == names;
      SyncNamesCloses(env, w, ns, front, src);
      var mid := SyncNames(env, w, ns, front, src);
      if name in mid.buffer {
        BufferedNameCloses(env, w, mid, ns, front, name, src);
      } else if name in env.templates {
        LoadedNameCloses(env, w, mid, ns, front, name, src);
      } else {
        SkippedNameCloses(env, w, mid, ns, front, name, src);
      }
    }
  }

  // ----------------------------------------------------------- the namespace handler

  /** The exact effect of a handler run on everything but the call counter. */
  ghost predicate HandlerEffect(w: World, w': World, buffer': Buffer, ns: string, names: seq<string>, src: string) {
    && w'.buffer == buffer'
    && Reconciled(w.live, w'.live, buffer', ns, names, src)
    && w'.raised == w.raised + Deviating(w.live, buffer', ns, names)
  }

  lemma DeletesCloses(env: Env, w: World, mid: World, w': World, ns: string, names: seq<string>, src: string, err: bool)
    requires env.faults == {}
    requires NamesSynced(w.live, w, mid, env.templates, ns, names, src)
    requires Deletes(env, mid, w', ns, names, err)
    ensures HandlerEffect(w, w', Resolved(env.templates, w.buffer, names), ns, names, src) && !err
  {
    DeletesCleanly(env, mid, w', ns, names, err);
    UnexpectedAreTheRest(w, mid, env.templates, ns, names, src);
    var unexpected := Unexpected(mid, ns, names);
    assert mid.live.Keys - w'.live.Keys == unexpected;
    assert forall k :: k in w'.live <==> k in mid.live && k !in unexpected;
  }

  lemma UnexpectedAreTheRest(w: World, mid: World, templates: map<string, Spec>, ns: string, names: seq<string>,
                             src: string)
    requires NamesSynced(w.live, w, mid, templates, ns, names, src)
    ensures Stale(w.live, mid.buffer, ns, names) + Unexpected(mid, ns, names)
         == Deviating(w.live, mid.buffer, ns, names)
    ensures forall k :: k in Unexpected(mid, ns, names) <==>
              k in w.live && k.namespace == ns && k.name in mid.buffer && k.name !in names
  {
  }

  /**
   A run of the namespace handler without API errors, with the lister in sync, loads every
   loadable name and then leaves exactly the reconciled policies, whatever the order of the
   deletions and however often a name is listed.
   */
  lemma NamespaceHandlerReconciles(defaults: Defaults, env: Env, w: World, w': World, key: string, err: bool)
    requires NamespaceHandled(defaults, env, w, w', key, err)
    requires key in env.namespacesLister && key !in defaults.excludes
    requires env.faults == {} && env.lister == w.live && BufferOk(w.buffer)
    ensures var names := Expected(defaults, env.namespacesLister[key]);
            var src := NetworkSetting(defaults, env.namespacesLister[key]).src;
            HandlerEffect(w, w', Resolved(env.templates, w.buffer, names), key, names, src) && !err
  {
    var names := Expected(defaults, env.namespacesLister[key]);
    var src := NetworkSetting(defaults, env.namespacesLister[key]).src;
    SyncNamesCloses(env, w, key, names, src);
    DeletesCloses(env, w, SyncNames(env, w, key, names, src), w', key, names, src, err);
  }

  /** What a reconciled namespace is worth to its owner. */
  lemma ReconciledConverges(live: Store, live': Store, buffer: Buffer, ns: string, names: seq<string>, src: string)
    requires Reconciled(live, live', buffer, ns, names, src)
    ensures Converged(live', buffer, ns, names)
    ensures forall k: Key :: !(k.namespace == ns && k.name in buffer) ==>
              (k in live' <==> k in live) && (k in live ==> live'[k] == live[k])
    ensures Deviating(live', buffer, ns, names) == {}
  {
    forall n | n in names && n in buffer
      ensures Key(ns, n) in live' && live'[Key(ns, n)].spec.wire == buffer[n].spec.wire
    {
      assert Managed(buffer, ns, names, Key(ns, n));
    }
  }

  /**
   Convergence: expected names are live with the buffered spec, other buffered names are
   gone, the rest is untouched.
   */
  lemma NamespaceHandlerConverges(defaults: Defaults, env: Env, w: World, w': World, key: string, err: bool)
    requires NamespaceHandled(defaults, env, w, w', key, err)
    requires key in env.namespacesLister && key !in defaults.excludes
    requires env.faults == {} && env.lister == w.live && BufferOk(w.buffer)
    ensures var names := Expected(defaults, env.namespacesLister[key]);
            && (forall n :: n in names && (n in w.buffer || n in env.templates) ==> n in w'.buffer)
            && Converged(w'.live, w'.buffer, key, names)
    ensures forall k: Key :: !(k.namespace == key && k.name in w'.buffer) ==>
              (k in w'.live <==> k in w.live) && (k in w.live ==> w'.live[k] == w.live[k])
  {
    NamespaceHandlerReconciles(defaults, env, w, w', key, err);
    var names := Expected(defaults, env.namespacesLister[key]);
    ReconciledConverges(w.live, w'.live, w'.buffer, key, names,
                        NetworkSetting(defaults, env.namespacesLister[key]).src);
  }

  /**
   What an expected policy is after a run, field by field: left exactly as it is when its
   marshalled spec is the template's, overwritten with the bare template when it is not, and
   created with an annotation that names source and template when it was not there.
   */
  predicate MadeFrom(live: Store, live': Store, template: Spec, k: Key, src: string) {
    && k in live'
    && live'[k] ==
       if k in live && live[k].spec.wire == template.wire then live[k]
       else if k in live then Policy(k.name, k.namespace, map[], template)
       else Policy(k.name, k.namespace, map["karydia.gardener.cloud/networkPolicy.internal" := src + "/" + k.name],
                    template)
  }

  /**
   The same as NamespaceHandlerConverges on the fields of the objects: which setting of which
   source counts, and with which specs the policies end. A template that was not buffered
   before is the resource as it is now.
   */
  lemma NamespaceHandlerMakesPolicies(defaults: Defaults, env: Env, w: World, w': World, key: string, err: bool,
                                      value: string, src: string)
    requires NamespaceHandled(defaults, env, w, w', key, err)
    requires key in env.namespacesLister && key !in defaults.excludes
    requires env.faults == {} && env.lister == w.live && BufferOk(w.buffer)
    requires var annotations := env.namespacesLister[key].annotations;
             if "karydia.gardener.cloud/networkPolicy" in annotations && !defaults.enforcement
             then value == annotations["karydia.gardener.cloud/networkPolicy"] && src == "namespace"
             else value == defaults.names && src == "config"
    ensures forall n :: n in Split(value, ';') && n in w'.buffer ==>
              && MadeFrom(w.live, w'.live, w'.buffer[n].spec, Key(key, n), src)
              && w'.live[Key(key, n)].spec.wire == w'.buffer[n].spec.wire
    ensures forall n :: n in Split(value, ';') && n in env.templates && n !in w.buffer ==>
              n in w'.buffer && w'.buffer[n].spec == env.templates[n]
    ensures forall n :: n in w'.buffer && n !in Split(value, ';') ==> Key(key, n) !in w'.live
  {
    NamespaceHandlerReconciles(defaults, env, w, w', key, err);
    NamespaceHandlerConverges(defaults, env, w, w', key, err);
    var names := Expected(defaults, env.namespacesLister[key]);
    ResolvedTwice(env.templates, w.buffer, names);
    forall n | n in names && n in w'.buffer
      ensures MadeFrom(w.live, w'.live, w'.buffer[n].spec, Key(key, n), src)
    {
      var k := Key(key, n);
      assert Managed(w'.buffer, key, names, k);
      GoalOnFields(w.live, w'.live, w'.buffer, src, k);
    }
  }

  lemma GoalOnFields(live: Store, live': Store, buffer: Buffer, src: string, k: Key)
    requires BufferOk(buffer) && k.name in buffer
    requires k in live' && live'[k] == Goal(live, buffer, src, k)
    ensures MadeFrom(live, live', buffer[k.name].spec, k, src)
  {
  }

  /** A converged namespace is a fixed point of reconciliation, and reconciliation changes nothing else. */
  lemma ReconcileConverged(live: Store, live': Store, buffer: Buffer, ns: string, names: seq<string>, src: string)
    requires Converged(live, buffer, ns, names)
    requires Reconciled(live, live', buffer, ns, names, src)
    ensures live' == live
    ensures Deviating(live, buffer, ns, names) == {}
  {
    forall k: Key | k.namespace == ns && k.name in buffer
      ensures k in live <==> k.name in names
      ensures k in live ==> !ReconcileIsNeeded(live[k], buffer[k.name])
    {
      assert k == Key(ns, k.name);
    }
    assert forall k :: k in live' <==> k in live;
    assert forall k :: k in live ==> live'[k] == live[k];
  }

  /** A second run with the lister caught up creates, updates, deletes and loads nothing, and raises no event. */
  lemma NamespaceHandlerIsIdempotent(defaults: Defaults, env: Env, w: World, w1: World, err1: bool,
                                     env2: Env, w2: World, err2: bool, key: string)
    requires env.faults == {} && env.lister == w.live && BufferOk(w.buffer)
    requires NamespaceHandled(defaults, env, w, w1, key, err1)
    requires env2 == env.(lister := w1.live)
    requires NamespaceHandled(defaults, env2, w1.(raised := {}), w2, key, err2)
    ensures w2.live == w1.live && w2.buffer == w1.buffer && w2.raised == {} && !err2
  {
    if key in env.namespacesLister && key !in defaults.excludes {
      var names := Expected(defaults, env.namespacesLister[key]);
      var src := NetworkSetting(defaults, env.namespacesLister[key]).src;
      NamespaceHandlerReconciles(defaults, env, w, w1, key, err1);
      ResolvedTwice(env.templates, w.buffer, names);
      NamespaceHandlerReconciles(defaults, env2, w1.(raised := {}), w2, key, err2);
      ReconciledConverges(w.live, w1.live, w1.buffer, key, names, src);
      ReconcileConverged(w1.live, w2.live, w1.buffer, key, names, src);
    }
  }

  lemma ResolvedTwice(templates: map<string, Spec>, buffer: Buffer, names: seq<string>)
    ensures BufferOk(buffer) ==> BufferOk(Resolved(templates, buffer, names))
    ensures Resolved(templates, Resolved(templates, buffer, names), names) == Resolved(templates, buffer, names)
  {
  }

  // ------------------------------------------------------ two namespaces, either order

  /** Handling `mine` after `others` has loaded more names, and a live policy of `ns` bears such a name. */
  predicate LosesToOrder(live: Store, templates: map<string, Spec>, buffer: Buffer, ns: string, mine: seq<string>,
                         others: seq<string>) {
    exists k :: k in live && k.namespace == ns && LosesPolicy(live, templates, buffer, mine, others, k)
  }

  lemma ResolvedCommutes(templates: map<string, Spec>, buffer: Buffer, first: seq<string>, second: seq<string>)
    ensures Resolved(templates, Resolved(templates, buffer, first), second)
         == Resolved(templates, Resolved(templates, buffer, second), first)
  {
  }

  /** The run of another namespace brings the policy's name into the buffer, where this one does not expect it. */
  predicate LosesPolicy(live: Store, templates: map<string, Spec>, buffer: Buffer, mine: seq<string>,
                        others: seq<string>,
                        k: Key) {
    k in live && k.name in others && k.name in templates && k.name !in buffer && k.name !in mine
  }

  predicate Agree(live: Store, live': Store, k: Key) {
    (k in live <==> k in live') && (k in live ==> live[k] == live'[k])
  }

  /** Reconciled, for one policy. */
  predicate ReconciledAt(live: Store, live': Store, buffer: Buffer, ns: string, names: seq<string>, src: string,
                         k: Key) {
    && (k in live' <==> Managed(buffer, ns, names, k) || (k in live && !(k.namespace == ns && k.name in buffer)))
    && (k in live' ==> live'[k] == if Managed(buffer, ns, names, k) then Goal(live, buffer, src, k) else live[k])
  }

  lemma ReconciledEach(live: Store, live': Store, buffer: Buffer, ns: string, names: seq<string>, src: string, k: Key)
    requires Reconciled(live, live', buffer, ns, names, src)
    ensures ReconciledAt(live, live', buffer, ns, names, src, k)
    ensures k.namespace != ns ==> Agree(live, live', k)
  {
  }

  /** One policy after its namespace was reconciled before and after another one loaded its names. */
  lemma SameUnlessLoaded(templates: map<string, Spec>, buffer: Buffer, ns: string, mine: seq<string>,
                         others: seq<string>,
                         live: Store, early: Store, mid: Store, late: Store, src: string, k: Key)
    requires k.namespace == ns && Agree(live, mid, k)
    requires ReconciledAt(live, early, Resolved(templates, buffer, mine), ns, mine, src, k)
    requires ReconciledAt(mid, late, Resolved(templates, Resolved(templates, buffer, others), mine), ns, mine, src, k)
    ensures Agree(early, late, k) <==> !LosesPolicy(live, templates, buffer, mine, others, k)
  {
    var small := Resolved(templates, buffer, mine);
    var large := Resolved(templates, Resolved(templates, buffer, others), mine);
    assert Managed(small, ns, mine, k) <==> Managed(large, ns, mine, k);
    assert k.name in large && k.name !in small <==>
      k.name in others && k.name in templates && k.name !in buffer && k.name !in mine;
  }

  /** For a policy of the namespace handled first in one order and second in the other. */
  lemma OrderMattersAt(templates: map<string, Spec>, w: World, ns1: string, names1: seq<string>, src1: string,
                       ns2: string, names2: seq<string>, src2: string,
                       a1: World, a12: World, b2: World, b21: World, k: Key)
    requires ns1 != ns2 && k.namespace == ns1
    requires HandlerEffect(w, a1, Resolved(templates, w.buffer, names1), ns1, names1, src1)
    requires HandlerEffect(a1, a12, Resolved(templates, a1.buffer, names2), ns2, names2, src2)
    requires HandlerEffect(w, b2, Resolved(templates, w.buffer, names2), ns2, names2, src2)
    requires HandlerEffect(b2, b21, Resolved(templates, b2.buffer, names1), ns1, names1, src1)
    ensures Agree(a12.live, b21.live, k) <==> !LosesPolicy(w.live, templates, w.buffer, names1, names2, k)
  {
    ReconciledEach(w.live, a1.live, a1.buffer, ns1, names1, src1, k);
    ReconciledEach(a1.live, a12.live, a12.buffer, ns2, names2, src2, k);
    ReconciledEach(w.live, b2.live, b2.buffer, ns2, names2, src2, k);
    ReconciledEach(b2.live, b21.live, b21.buffer, ns1, names1, src1, k);
    SameUnlessLoaded(templates, w.buffer, ns1, names1, names2, w.live, a1.live, b2.live, b21.live, src1, k);
  }

  /** For a policy of any other namespace the order never matters. */
  lemma OrderIrrelevantAt(templates: map<string, Spec>, w: World, ns1: string, names1: seq<string>, src1: string,
                          ns2: string, names2: seq<string>, src2: string,
                          a1: World, a12: World, b2: World, b21: World, k: Key)
    requires k.namespace != ns1 && k.namespace != ns2
    requires HandlerEffect(w, a1, Resolved(templates, w.buffer, names1), ns1, names1, src1)
    requires HandlerEffect(a1, a12, Resolved(templates, a1.buffer, names2), ns2, names2, src2)
    requires HandlerEffect(w, b2, Resolved(templates, w.buffer, names2), ns2, names2, src2)
    requires HandlerEffect(b2, b21, Resolved(templates, b2.buffer, names1), ns1, names1, src1)
    ensures Agree(a12.live, b21.live, k)
  {
    ReconciledEach(w.live, a1.live, a1.buffer, ns1, names1, src1, k);
    ReconciledEach(a1.live, a12.live, a12.buffer, ns2, names2, src2, k);
    ReconciledEach(w.live, b2.live, b2.buffer, ns2, names2, src2, k);
    ReconciledEach(b2.live, b21.live, b21.buffer, ns1, names1, src1, k);
  }

  lemma AgreeEverywhere(live: Store, live': Store)
    ensures live == live' <==> forall k :: Agree(live, live', k)
  {
    if forall k :: Agree(live, live', k) {
      assert forall k :: k in live ==> Agree(live, live', k);
      assert forall k :: k in live' ==> Agree(live, live', k);
      assert live.Keys == live'.Keys;
    }
  }

  lemma EffectsCommuteExactly(templates: map<string, Spec>, w: World, ns1: string, names1: seq<string>, src1: string,
                              ns2: string, names2: seq<string>, src2: string,
                              a1: World, a12: World, b2: World, b21: World)
    requires ns1 != ns2
    requires HandlerEffect(w, a1, Resolved(templates, w.buffer, names1), ns1, names1, src1)
    requires HandlerEffect(a1, a12, Resolved(templates, a1.buffer, names2), ns2, names2, src2)
    requires HandlerEffect(w, b2, Resolved(templates, w.buffer, names2), ns2, names2, src2)
    requires HandlerEffect(b2, b21, Resolved(templates, b2.buffer, names1), ns1, names1, src1)
    ensures a12.buffer == b21.buffer
    ensures a12.live == b21.live <==>
              !LosesToOrder(w.live, templates, w.buffer, ns1, names1, names2)
              && !LosesToOrder(w.live, templates, w.buffer, ns2, names2, names1)
  {
    ResolvedCommutes(templates, w.buffer, names1, names2);
    forall k: Key
      ensures Agree(a12.live, b21.live, k) <==> !OrderSensitive(w, templates, ns1, names1, ns2, names2, k)
    {
      OrderMattersExactly(templates, w, ns1, names1, src1, ns2, names2, src2, a1, a12, b2, b21, k);
    }
    SensitiveSomewhere(a12.live, b21.live, w, templates, ns1, names1, ns2, names2);
  }

  predicate OrderSensitive(w: World, templates: map<string, Spec>, ns1: string, names1: seq<string>, ns2: string,
                           names2: seq<string>, k: Key) {
    (k.namespace == ns1 && LosesPolicy(w.live, templates, w.buffer, names1, names2, k))
    || (k.namespace == ns2 && LosesPolicy(w.live, templates, w.buffer, names2, names1, k))
  }

  lemma OrderMattersExactly(templates: map<string, Spec>, w: World, ns1: string, names1: seq<string>, src1: string,
                            ns2: string, names2: seq<string>, src2: string,
                            a1: World, a12: World, b2: World, b21: World, k: Key)
    requires ns1 != ns2
    requires HandlerEffect(w, a1, Resolved(templates, w.buffer, names1), ns1, names1, src1)
    requires HandlerEffect(a1, a12, Resolved(templates, a1.buffer, names2), ns2, names2, src2)
    requires HandlerEffect(w, b2, Resolved(templates, w.buffer, names2), ns2, names2, src2)
    requires HandlerEffect(b2, b21, Resolved(templates, b2.buffer, names1), ns1, names1, src1)
    ensures Agree(a12.live, b21.live, k) <==> !OrderSensitive(w, templates, ns1, names1, ns2, names2, k)
  {
    if k.namespace == ns1 {
      OrderMattersAt(templates, w, ns1, names1, src1, ns2, names2, src2, a1, a12, b2, b21, k);
    } else if k.namespace == ns2 {
      OrderMattersAt(templates, w, ns2, names2, src2, ns1, names1, src1, b2, b21, a1, a12, k);
    } else {
      OrderIrrelevantAt(templates, w, ns1, names1, src1, ns2, names2, src2, a1, a12, b2, b21, k);
    }
  }

  lemma SensitiveSomewhere(live: Store, live': Store, w: World, templates: map<string, Spec>, ns1: string,
                           names1: seq<string>, ns2: string, names2: seq<string>)
    requires forall k :: Agree(live, live', k) <==> !OrderSensitive(w, templates, ns1, names1, ns2, names2, k)
    ensures live == live' <==>
              !LosesToOrder(w.live, templates, w.buffer, ns1, names1, names2)
              && !LosesToOrder(w.live, templates, w.buffer, ns2, names2, names1)
  {
    AgreeEverywhere(live, live');
    if LosesToOrder(w.live, templates, w.buffer, ns1, names1, names2) {
      var k :| k in w.live && k.namespace == ns1 && LosesPolicy(w.live, templates, w.buffer, names1, names2, k);
      assert OrderSensitive(w, templates, ns1, names1, ns2, names2, k);
    } else if LosesToOrder(w.live, templates, w.buffer, ns2, names2, names1) {
      var k :| k in w.live && k.namespace == ns2 && LosesPolicy(w.live, templates, w.buffer, names2, names1, k);
      assert OrderSensitive(w, templates, ns1, names1, ns2, names2, k);
    } else {
      assert forall k :: !OrderSensitive(w, templates, ns1, names1, ns2, names2, k);
    }
  }

  /** Namespace handler runs on two namespaces in either order, with no API errors and the lister in sync. */
  ghost predicate BothOrders(defaults: Defaults, env: Env, w: World, key1: string, key2: string,
                       a1: World, a12: World, b2: World, b21: World) {
    && env.faults == {} && BufferOk(w.buffer) && key1 != key2
    && key1 in env.namespacesLister && key1 !in defaults.excludes
    && key2 in env.namespacesLister && key2 !in defaults.excludes
    && NamespaceHandled(defaults, env.(lister := w.live), w, a1, key1, false)
    && NamespaceHandled(defaults, env.(lister := a1.live), a1, a12, key2, false)
    && NamespaceHandled(defaults, env.(lister := w.live), w, b2, key2, false)
    && NamespaceHandled(defaults, env.(lister := b2.live), b2, b21, key1, false)
  }

  /**
   Handling two namespaces gives the same live policies in either order exactly when
   neither has a live policy whose name only the other one's run brings into the buffer.
   */
  lemma HandlersCommuteExactly(defaults: Defaults, env: Env, w: World, key1: string, key2: string,
                               a1: World, a12: World, b2: World, b21: World)
    requires BothOrders(defaults, env, w, key1, key2, a1, a12, b2, b21)
    ensures var names1 := Expected(defaults, env.namespacesLister[key1]);
            var names2 := Expected(defaults, env.namespacesLister[key2]);
            && a12.buffer == b21.buffer
            && (a12.live == b21.live <==>
                  !LosesToOrder(w.live, env.templates, w.buffer, key1, names1, names2)
                  && !LosesToOrder(w.live, env.templates, w.buffer, key2, names2, names1))
  {
    var ns1, ns2 := env.namespacesLister[key1], env.namespacesLister[key2];
    var names1, names2 := Expected(defaults, ns1), Expected(defaults, ns2);
    NamespaceHandlerReconciles(defaults, env.(lister := w.live), w, a1, key1, false);
    NamespaceHandlerReconciles(defaults, env.(lister := w.live), w, b2, key2, false);
    ResolvedTwice(env.templates, w.buffer, names1);
    ResolvedTwice(env.templates, w.buffer, names2);
    NamespaceHandlerReconciles(defaults, env.(lister := a1.live), a1, a12, key2, false);
    NamespaceHandlerReconciles(defaults, env.(lister := b2.live), b2, b21, key1, false);
    EffectsCommuteExactly(env.templates, w, key1, names1, NetworkSetting(defaults, ns1).src,
                          key2, names2, NetworkSetting(defaults, ns2).src, a1, a12, b2, b21);
  }

  /** With every loadable name of both settings buffered, the order never matters. */
  lemma BufferedHandlersCommute(defaults: Defaults, env: Env, w: World, key1: string, key2: string,
                                a1: World, a12: World, b2: World, b21: World)
    requires BothOrders(defaults, env, w, key1, key2, a1, a12, b2, b21)
    requires forall n :: n in env.templates
                && (n in Expected(defaults, env.namespacesLister[key1])
                    || n in Expected(defaults, env.namespacesLister[key2]))
                ==> n in w.buffer
    ensures a12.live == b21.live && a12.buffer == b21.buffer
  {
    HandlersCommuteExactly(defaults, env, w, key1, key2, a1, a12, b2, b21);
  }

  /** A handler run on a namespace without API errors. */
  lemma HandlerRuns(defaults: Defaults, env: Env, w: World, key: string) returns (w': World)
    requires env.faults == {} && key in env.namespacesLister && key !in defaults.excludes
    ensures NamespaceHandled(defaults, env, w, w', key, false)
  {
    var names := Expected(defaults, env.namespacesLister[key]);
    var src := NetworkSetting(defaults, env.namespacesLister[key]).src;
    w' := DeletionPossible(env, SyncNames(env, w, key, names, src), key, names);
  }

  /**
   Otherwise it can: one namespace has a policy of its own with a template's name, and only
   the other one's run loads that template, after which the first one's run deletes the policy.
   */
  lemma OrderCanMatter(spec: Spec)
    ensures exists defaults, env, w, a1, a12, b2, b21 ::
              BothOrders(defaults, env, w, "red", "blue", a1, a12, b2, b21) && a12.live != b21.live
  {
    var defaults := Defaults(false, "", []);
    var namespaces := map[
      "red" := Namespace("red", map[NETWORK_POLICY := "a"]),
      "blue" := Namespace("blue", map[NETWORK_POLICY := "b"])];
    var stray := Key("red", "b");
    var live := map[stray := Policy("b", "red", map[], spec)];
    var env := Env(map["b" := spec], namespaces, live, namespaces, {});
    var w := World(live, map[], {}, 0);
    SplitOne("a", DELIMITER);
    SplitOne("b", DELIMITER);
    var a1 := HandlerRuns(defaults, env, w, "red");
    var a12 := HandlerRuns(defaults, env.(lister := a1.live), a1, "blue");
    var b2 := HandlerRuns(defaults, env, w, "blue");
    var b21 := HandlerRuns(defaults, env.(lister := b2.live), b2, "red");
    assert env.(lister := w.live) == env;
    assert BothOrders(defaults, env, w, "red", "blue", a1, a12, b2, b21);
    HandlersCommuteExactly(defaults, env, w, "red", "blue", a1, a12, b2, b21);
    assert stray in live && LosesPolicy(live, env.templates, w.buffer, ["a"], ["b"], stray);
  }

  // ------------------------------------------------------------- the policy handler

  /** Without API errors exactly the names before the first unresolvable one are loaded, and that one ends the loop. */
  lemma {:induction false} LoadAllCloses(env: Env, w: World, names: seq<string>)
    requires env.faults == {}
    ensures var r := LoadAll(env, w, names);
            && r.world.live == w.live && r.world.raised == w.raised
            && (r.ok <==> AllResolvable(env.templates, w.buffer, names))
            && r.world.buffer == Resolved(env.templates, w.buffer, Reached(env.templates, w.buffer, names))
    decreases |names|
  {
    if names == [] {
      assert Resolved(env.templates, w.buffer, []) == w.buffer;
    } else {
      var front, name := names[..|names| - 1], names[|names| - 1];
      assert front + [name] == names;
      assert forall n :: n in names <==> n in front || n == name;
      LoadAllCloses(env, w, front);
      ResolvedReachedSnoc(env.templates, w.buffer, front, name);
    }
  }

  lemma ResolvedReachedSnoc(templates: map<string, Spec>, buffer: Buffer, front: seq<string>, name: string)
    ensures var loaded := Resolved(templates, buffer, Reached(templates, buffer, front));
            Resolved(templates, buffer, Reached(templates, buffer, front + [name])) ==
            if !AllResolvable(templates, buffer, front) || name in loaded || name !in templates then loaded
            else loaded[name := Template(name, templates[name])]
    ensures AllResolvable(templates, buffer, front + [name]) <==>
              AllResolvable(templates, buffer, front)
              && (name in Resolved(templates, buffer, Reached(templates, buffer, front)) || name in templates)
  {
    ReachedSnoc(templates, buffer, front, name);
    ReachedAll(templates, buffer, front);
    ResolvedSnoc(templates, buffer, front, name);
    assert forall n :: n in front + [name] <==> n in front || n == name;
  }

  /** The policy the handler's key names, if the handler gets to reconcile it. */
  function Target(templates: map<string, Spec>, buffer: Buffer, ns: string, names: seq<string>,
                  name: string): set<Key> {
    if AllResolvable(templates, buffer, names) && name in names then {Key(ns, name)} else {}
  }

  predicate Surplus(buffer: Buffer, ns: string, names: seq<string>, k: Key) {
    k.namespace == ns && k.name in buffer && k.name !in names
  }

  /** The exact effect of a policy handler run: its target reconciled, surplus policies of the namespace removed. */
  ghost predicate PolicyEffect(w: World, w': World, ns: string, names: seq<string>, src: string, target: set<Key>) {
    && (forall k :: k in target ==> Managed(w'.buffer, ns, names, k))
    && (forall k :: k in w'.live <==> k in target || (k in w.live && !Surplus(w'.buffer, ns, names, k)))
    && (forall k :: k in w'.live ==>
          w'.live[k] == if k in target then Goal(w.live, w'.buffer, src, k) else w.live[k])
    && w'.raised == w.raised
         + (set k | k in w.live && k in target && ReconcileIsNeeded(w.live[k], w'.buffer[k.name]))
         + (set k | k in w.live && Surplus(w'.buffer, ns, names, k))
  }

  /** The policy handler before its deletions. */
  ghost predicate PolicySynced(w: World, mid: World, ns: string, names: seq<string>, src: string, target: set<Key>) {
    && (forall k :: k in target ==> Managed(mid.buffer, ns, names, k))
    && (forall k :: k in mid.live <==> k in target || k in w.live)
    && (forall k :: k in mid.live ==>
          mid.live[k] == if k in target then Goal(w.live, mid.buffer, src, k) else w.live[k])
    && mid.raised == w.raised
         + set k | k in w.live && k in target && ReconcileIsNeeded(w.live[k], mid.buffer[k.name])
  }

  lemma DeletesSurplus(env: Env, w: World, mid: World, w': World, ns: string, names: seq<string>, src: string,
                       target: set<Key>, err: bool)
    requires env.faults == {} && Deletes(env, mid, w', ns, names, err)
    requires PolicySynced(w, mid, ns, names, src, target)
    ensures PolicyEffect(w, w', ns, names, src, target) && !err && w'.buffer == mid.buffer
  {
    DeletesCleanly(env, mid, w', ns, names, err);
    var unexpected := Unexpected(mid, ns, names);
    assert unexpected == set k | k in w.live && Surplus(mid.buffer, ns, names, k);
    assert mid.live.Keys - w'.live.Keys == unexpected;
    assert forall k :: k in w'.live <==> k in mid.live && k !in unexpected;
  }

  lemma PolicyHandlerReconciles(defaults: Defaults, env: Env, w: World, w': World, key: string, k: Key, err: bool)
    requires PolicyHandled(defaults, env, w, w', key, err)
    requires SplitKey(key) == Some(k) && k.namespace in env.namespaces
    requires env.faults == {} && env.lister == w.live && BufferOk(w.buffer)
    ensures var names := Expected(defaults, env.namespaces[k.namespace]);
            var src := NetworkSetting(defaults, env.namespaces[k.namespace]).src;
            && !err
            && w'.buffer == Resolved(env.templates, w.buffer, Reached(env.templates, w.buffer, names))
            && PolicyEffect(w, w', k.namespace, names, src, Target(env.templates, w.buffer, k.namespace, names, k.name))
  {
    var setting := NetworkSetting(defaults, env.namespaces[k.namespace]);
    var names := Split(setting.value, DELIMITER);
    var mid := SyncPolicy(env, Called(w), k.namespace, k.name, setting).world;
    var target := Target(env.templates, w.buffer, k.namespace, names, k.name);
    LoadAllCloses(env, Called(w), names);
    SyncPolicyCloses(env, Called(w), k.namespace, k.name, setting);
    DeletesSurplus(env, w, mid, w', k.namespace, names, setting.src, target, err);
  }

  lemma SyncTarget(env: Env, w: World, loaded: World, ns: string, names: seq<string>, name: string, src: string)
    requires env.faults == {} && env.lister == w.live && BufferOk(loaded.buffer)
    requires loaded.live == w.live && loaded.raised == w.raised && name in names && name in loaded.buffer
    ensures PolicySynced(w, SyncBuffered(env, loaded, ns, name, src).world, ns, names, src, {Key(ns, name)})
    ensures SyncBuffered(env, loaded, ns, name, src).world.buffer == loaded.buffer
  {
    var key := Key(ns, name);
    assert loaded.buffer[name].name == name;
    var stale := if key in w.live && ReconcileIsNeeded(w.live[key], loaded.buffer[name]) then {key} else {};
    assert stale == set k | k in w.live && k in {key} && ReconcileIsNeeded(w.live[k], loaded.buffer[k.name]);
  }

  lemma NoTarget(w: World, loaded: World, ns: string, names: seq<string>, src: string)
    requires loaded.live == w.live && loaded.raised == w.raised
    ensures PolicySynced(w, loaded, ns, names, src, {})
  {
  }

  lemma SyncPolicyCloses(env: Env, w: World, ns: string, name: string, setting: Setting)
    requires env.faults == {} && env.lister == w.live && BufferOk(w.buffer)
    ensures var names := Split(setting.value, DELIMITER);
            var mid := SyncPolicy(env, w, ns, name, setting).world;
            && mid.buffer == LoadAll(env, w, names).world.buffer
            && PolicySynced(w, mid, ns, names, setting.src, Target(env.templates, w.buffer, ns, names, name))
  {
    var names := Split(setting.value, DELIMITER);
    var loaded := LoadAll(env, w, names);
    LoadAllCloses(env, w, names);
    LoadAllSafe(env, w, names);
    if loaded.ok && name in names {
      SyncTarget(env, w, loaded.world, ns, names, name, setting.src);
    } else {
      NoTarget(w, loaded.world, ns, names, setting.src);
    }
  }

  /** From a converged namespace, one policy is updated or deleted by someone else. */
  predicate OutsideChange(live: Store, live': Store, k: Key) {
    k in live && (live' == live - {k} || (k in live' && live' == live[k := live'[k]]))
  }

  /**
   Repair: the handler run on the changed policy's key brings a managed policy back to the
   buffered spec and leaves the change to any other policy alone.
   */
  lemma PolicyHandlerRepairs(defaults: Defaults, env: Env, before: Store, w: World, w': World, k: Key, err: bool)
    requires k.namespace != "" && '/' !in k.namespace && '/' !in k.name && k.namespace in env.namespaces
    requires env.faults == {} && env.lister == w.live && BufferOk(w.buffer)
    requires forall n :: n in Expected(defaults, env.namespaces[k.namespace]) ==> n in w.buffer
    requires Converged(before, w.buffer, k.namespace, Expected(defaults, env.namespaces[k.namespace]))
    requires OutsideChange(before, w.live, k)
    requires PolicyHandled(defaults, env, w, w', KeyString(k), err)
    ensures w'.buffer == w.buffer && !err
    ensures Converged(w'.live, w.buffer, k.namespace, Expected(defaults, env.namespaces[k.namespace]))
    ensures k.name in w.buffer ==> w'.live.Keys == before.Keys && w'.live - {k} == before - {k}
    ensures k.name !in w.buffer ==> w'.live == w.live
    ensures k.name in Expected(defaults, env.namespaces[k.namespace]) ==>
              && MadeFrom(w.live, w'.live, w.buffer[k.name].spec, k,
                          NetworkSetting(defaults, env.namespaces[k.namespace]).src)
              && w'.live[k].spec.wire == w.buffer[k.name].spec.wire
  {
    var ns := env.namespaces[k.namespace];
    var names, src := Expected(defaults, ns), NetworkSetting(defaults, ns).src;
    KeyRoundTrip(k);
    PolicyHandlerReconciles(defaults, env, w, w', KeyString(k), k, err);
    AlreadyBuffered(env.templates, w.buffer, names);
    RepairEffect(before, w, w', k, names, src);
    if k.name in names {
      assert k == Key(k.namespace, k.name);
      GoalOnFields(w.live, w'.live, w.buffer, src, k);
    }
  }

  /** One expected name without a template blocks the repair of every expected policy of the namespace. */
  lemma MissingTemplateBlocksRepair(defaults: Defaults, env: Env, w: World, w': World, k: Key, err: bool)
    requires k.namespace != "" && '/' !in k.namespace && '/' !in k.name && k.namespace in env.namespaces
    requires env.faults == {} && env.lister == w.live && BufferOk(w.buffer)
    requires PolicyHandled(defaults, env, w, w', KeyString(k), err)
    requires k.name in Expected(defaults, env.namespaces[k.namespace])
    requires !AllResolvable(env.templates, w.buffer, Expected(defaults, env.namespaces[k.namespace]))
    ensures Agree(w.live, w'.live, k) && !err
  {
    KeyRoundTrip(k);
    PolicyHandlerReconciles(defaults, env, w, w', KeyString(k), k, err);
  }

  lemma AlreadyBuffered(templates: map<string, Spec>, buffer: Buffer, names: seq<string>)
    requires forall n :: n in names ==> n in buffer
    ensures Resolved(templates, buffer, names) == buffer && AllResolvable(templates, buffer, names)
  {
  }

  lemma RepairEffect(before: Store, w: World, w': World, k: Key, names: seq<string>, src: string)
    requires w'.buffer == w.buffer
    requires PolicyEffect(w, w', k.namespace, names, src, if k.name in names then {Key(k.namespace, k.name)} else {})
    requires Converged(before, w.buffer, k.namespace, names)
    requires OutsideChange(before, w.live, k)
    ensures Converged(w'.live, w.buffer, k.namespace, names)
    ensures k.name in w.buffer ==> w'.live.Keys == before.Keys && w'.live - {k} == before - {k}
    ensures k.name !in w.buffer ==> w'.live == w.live
  {
    assert k == Key(k.namespace, k.name);
    forall x | x in w.live
      ensures !Surplus(w.buffer, k.namespace, names, x)
    {
      assert x == Key(x.namespace, x.name);
      assert x in before;
    }
    assert forall x :: x in w'.live <==> x in w.live || (x == k && k.name in names);
    if k.name !in w.buffer {
      assert w'.live.Keys == w.live.Keys;
    } else {
      assert k.name in names;
      assert w'.live.Keys == before.Keys;
    }
  }
}
