/** The network-policy controller, updating its buffer and the cluster in place. */
module NetworkPolicyReconciler {
  import opened Results
  import opened Text
  import opened Resources
  import opened ObjectKeys
  import opened NetworkPolicies

  /** The API server as the controller sees it; the n-th call of a handler run fails when n is in `faults`. */
  class Cluster {
    var policies: Store
    var raised: set<Key>
    var calls: nat
    var templates: map<string, Spec>
    var namespaces: map<string, Namespace>
    var faults: set<nat>

    constructor (policies: Store, templates: map<string, Spec>, namespaces: map<string, Namespace>, faults: set<nat>)
      ensures this.policies == policies && this.templates == templates && this.namespaces == namespaces
      ensures this.faults == faults && raised == {} && calls == 0
    {
      this.policies, this.templates, this.namespaces, this.faults := policies, templates, namespaces, faults;
      raised, calls := {}, 0;
    }

    method GetTemplate(name: string) returns (spec: Option<Spec>)
      modifies `calls
      ensures calls == old(calls) + 1
      ensures spec == if old(calls) in faults || name !in templates then None else Some(templates[name])
    {
      var failed := calls in faults;
      calls := calls + 1;
      spec := if failed || name !in templates then None else Some(templates[name]);
    }

    method GetNamespace(name: string) returns (ns: Option<Namespace>)
      modifies `calls
      ensures calls == old(calls) + 1
      ensures ns == if old(calls) in faults || name !in namespaces then None else Some(namespaces[name])
    {
      var failed := calls in faults;
      calls := calls + 1;
      ns := if failed || name !in namespaces then None else Some(namespaces[name]);
    }

    method GetPolicy(key: Key) returns (found: bool)
      modifies `calls
      ensures calls == old(calls) + 1
      ensures found <==> old(calls) !in faults && key in policies
    {
      found := calls !in faults && key in policies;
      calls := calls + 1;
    }

    method CreatePolicy(policy: Policy) returns (ok: bool)
      modifies `calls, `policies
      ensures calls == old(calls) + 1
      ensures var key := Key(policy.namespace, policy.name);
              && (ok <==> old(calls) !in faults && key !in old(policies))
              && policies == if ok then old(policies)[key := policy] else old(policies)
    {
      var key := Key(policy.namespace, policy.name);
      ok := calls !in faults && key !in policies;
      calls := calls + 1;
      if ok {
        policies := policies[key := policy];
      }
    }

    method UpdatePolicy(policy: Policy) returns (ok: bool)
      modifies `calls, `policies, `raised
      ensures calls == old(calls) + 1
      ensures var key := Key(policy.namespace, policy.name);
              && (ok <==> old(calls) !in faults && key in old(policies))
              && policies == (if ok then old(policies)[key := policy] else old(policies))
              && raised == if ok then old(raised) + {key} else old(raised)
    {
      var key := Key(policy.namespace, policy.name);
      ok := calls !in faults && key in policies;
      calls := calls + 1;
      if ok {
        policies := policies[key := policy];
        raised := raised + {key};
      }
    }

    method DeletePolicy(key: Key) returns (ok: bool)
      modifies `calls, `policies, `raised
      ensures calls == old(calls) + 1
      ensures ok <==> old(calls) !in faults && key in old(policies)
      ensures policies == if ok then old(policies) - {key} else old(policies)
      ensures raised == if ok then old(raised) + {key} else old(raised)
    {
      ok := calls !in faults && key in policies;
      calls := calls + 1;
      if ok {
        policies := policies - {key};
        raised := raised + {key};
      }
    }
  }

  class NetworkpolicyReconciler {
    var defaultEnforcement: bool
    var defaultNetworkPolicyNames: string
    var defaultNetworkPolicies: Buffer
    const defaultNetworkPolicyExcludes: seq<string>

    const cluster: Cluster
    var networkPolicyLister: Store
    var namespacesLister: map<string, Namespace>

    constructor (cluster: Cluster, networkPolicyLister: Store, namespacesLister: map<string, Namespace>,
                 defaultNetworkPolicies: Buffer, defaults: Defaults)
      ensures this.cluster == cluster && this.networkPolicyLister == networkPolicyLister
      ensures this.namespacesLister == namespacesLister
      ensures State() == World(cluster.policies, defaultNetworkPolicies, cluster.raised, cluster.calls)
      ensures Configuration() == defaults
    {
      defaultEnforcement, defaultNetworkPolicyNames := defaults.enforcement, defaults.names;
      defaultNetworkPolicyExcludes := defaults.excludes;
      this.defaultNetworkPolicies := defaultNetworkPolicies;
      this.cluster, this.networkPolicyLister, this.namespacesLister := cluster, networkPolicyLister, namespacesLister;
    }

    function State(): World
      reads this, cluster
    {
      World(cluster.policies, defaultNetworkPolicies, cluster.raised, cluster.calls)
    }

    function Environment(): Env
      reads this, cluster
    {
      Env(cluster.templates, cluster.namespaces, networkPolicyLister, namespacesLister, cluster.faults)
    }

    function Configuration(): Defaults
      reads this
    {
      Defaults(defaultEnforcement, defaultNetworkPolicyNames, defaultNetworkPolicyExcludes)
    }

    /** Takes over the two fields it needs; it never fails. */
    method UpdateConfig(config: KarydiaConfig)
      modifies `defaultEnforcement, `defaultNetworkPolicyNames
      ensures Configuration()
           == Defaults(config.spec.enforcement, config.spec.networkPolicies, defaultNetworkPolicyExcludes)
    {
      defaultEnforcement := config.spec.enforcement;
      defaultNetworkPolicyNames := config.spec.networkPolicies;
    }

    method GetDefaultNetworkpolicySetting(ns: Namespace) returns (setting: Setting)
      ensures setting == NetworkSetting(Configuration(), ns)
    {
      setting := Setting(defaultNetworkPolicyNames, "config");
      if NETWORK_POLICY in ns.annotations && !defaultEnforcement {
        setting := Setting(ns.annotations[NETWORK_POLICY], "namespace");
      }
    }

    /** Whether the marshalled form of the spec is another one than the template's. */
    method ReconcileIsNeeded(actualPolicy: Policy, name: string) returns (needed: bool)
      requires name in defaultNetworkPolicies
      ensures needed <==> actualPolicy.spec.wire != defaultNetworkPolicies[name].spec.wire
    {
      var actualSpec := Marshal(actualPolicy.spec);
      var desiredSpec := Marshal(defaultNetworkPolicies[name].spec);
      needed := actualSpec != desiredSpec;
    }

    method UpdateBuffer(name: string) returns (ok: bool)
      modifies `defaultNetworkPolicies, cluster`calls
      ensures Outcome(State(), ok) == Load(Environment(), old(State()), name)
      ensures ok ==> name in cluster.templates
      ensures ok ==> defaultNetworkPolicies == old(defaultNetworkPolicies)[
                name := Policy(name, "", map[], cluster.templates[name])]
      ensures !ok ==> defaultNetworkPolicies == old(defaultNetworkPolicies)
    {
      var spec := cluster.GetTemplate(name);
      if spec.None? {
        return false;
      }
      defaultNetworkPolicies := defaultNetworkPolicies[name := Policy(name, "", map[], spec.value)];
      return true;
    }

    method CreateDefaultNetworkPolicy(ns: string, name: string, setting: Setting) returns (ok: bool)
      requires name in defaultNetworkPolicies
      modifies cluster`calls, cluster`policies
      ensures Outcome(State(), ok) == Create(Environment(), old(State()), ns, name, setting.src)
      ensures var template := defaultNetworkPolicies[name];
              var mark := map["karydia.gardener.cloud/networkPolicy.internal" := setting.src + "/" + name];
              cluster.policies == if !ok then old(cluster.policies)
                else old(cluster.policies)[
                  Key(ns, template.name) := Policy(template.name, ns, mark, template.spec)]
    {
      var desired := defaultNetworkPolicies[name].(namespace := ns);
      desired := desired.(annotations := map[NETWORK_POLICY_INTERNAL := setting.src + "/" + name]);
      ok := cluster.CreatePolicy(desired);
    }

    method UpdateDefaultNetworkPolicy(ns: string, name: string) returns (ok: bool)
      requires name in defaultNetworkPolicies
      modifies cluster`calls, cluster`policies, cluster`raised
      ensures Outcome(State(), ok) == Update(Environment(), old(State()), ns, name)
      ensures var template := defaultNetworkPolicies[name];
              cluster.policies == if !ok then old(cluster.policies)
                else old(cluster.policies)[
                  Key(ns, template.name) := Policy(template.name, ns, template.annotations, template.spec)]
    {
      var desired := defaultNetworkPolicies[name].(namespace := ns);
      ok := cluster.UpdatePolicy(desired);
    }

    method SyncNamespace(name: string, ns: string, setting: Setting) returns (ok: bool)
      modifies `defaultNetworkPolicies, cluster`calls, cluster`policies, cluster`raised
      ensures Outcome(State(), ok) == SyncName(Environment(), old(State()), ns, name, setting.src)
    {
      if name !in defaultNetworkPolicies {
        var loaded := UpdateBuffer(name);
        if !loaded {
          return true;
        }
      }
      if Key(ns, name) !in networkPolicyLister {
        ok := CreateDefaultNetworkPolicy(ns, name, setting);
      } else {
        var needed := ReconcileIsNeeded(networkPolicyLister[Key(ns, name)], name);
        ok := true;
        if needed {
          ok := UpdateDefaultNetworkPolicy(ns, name);
        }
      }
    }

    method SyncNetworkPolicy(ns: string, name: string, setting: Setting) returns (ok: bool)
      modifies `defaultNetworkPolicies, cluster`calls, cluster`policies, cluster`raised
      ensures Outcome(State(), ok) == SyncPolicy(Environment(), old(State()), ns, name, setting)
    {
      var names := Split(setting.value, DELIMITER);
      ghost var env, start := Environment(), State();
      for i := 0 to |names|
        invariant Environment() == env
        invariant Outcome(State(), true) == LoadAll(env, start, names[..i])
      {
        assert names[..i + 1][..i] == names[..i];
        if names[i] !in defaultNetworkPolicies {
          var loaded := UpdateBuffer(names[i]);
          if !loaded {
            StaysFailed(env, start, names, i + 1);
            return true;
          }
        }
      }
      assert names[..|names|] == names;
      if name in names && name == defaultNetworkPolicies[name].name {
        if Key(ns, name) !in networkPolicyLister {
          ok := CreateDefaultNetworkPolicy(ns, name, setting);
        } else {
          var needed := ReconcileIsNeeded(networkPolicyLister[Key(ns, name)], name);
          ok := true;
          if needed {
            ok := UpdateDefaultNetworkPolicy(ns, name);
          }
        }
      } else {
        ok := true;
      }
    }

    method DeleteDefaultNetworkPolicy(ns: string, name: string) returns (ok: bool)
      modifies cluster`calls, cluster`policies, cluster`raised
      ensures Environment() == old(Environment())
      ensures Outcome(State(), ok) == DeleteOne(Environment(), old(State()), Key(ns, name))
    {
      var found := cluster.GetPolicy(Key(ns, name));
      if found {
        ok := cluster.DeletePolicy(Key(ns, name));
        return ok;
      }
      return true;
    }

    /** Visits the buffer in an arbitrary order; only a failing deletion ends it with an error. */
    method DeleteMultipleDefaultNetworkPolicies(ns: string, setting: Setting) returns (err: bool)
      modifies cluster`calls, cluster`policies, cluster`raised
      ensures Deletes(Environment(), old(State()), State(), ns, Split(setting.value, DELIMITER), err)
    {
      var names := Split(setting.value, DELIMITER);
      ghost var env, start := Environment(), State();
      ghost var order: seq<string> := [];
      var remaining := defaultNetworkPolicies.Keys;
      while remaining != {}
        invariant Environment() == env && defaultNetworkPolicies == start.buffer
        invariant DeleteAll(env, start, ns, order) == Outcome(State(), true)
        invariant Lists(order, Undesired(start.buffer, names) - remaining, true)
        invariant remaining <= defaultNetworkPolicies.Keys
        decreases |remaining|
      {
        var name :| name in remaining;
        remaining := remaining - {name};
        if name !in names {
          var ok := DeleteDefaultNetworkPolicy(ns, name);
          assert (order + [name])[..|order|] == order;
          order := order + [name];
          assert forall n :: n in order ==> n in Undesired(start.buffer, names);
          assert DeleteAll(env, start, ns, order) == Outcome(State(), ok);
          if !ok {
            assert Lists(order, Undesired(start.buffer, names), false);
            return true;
          }
        }
      }
      return false;
    }

    method SyncNamespaceHandler(key: string) returns (err: bool)
      modifies `defaultNetworkPolicies, cluster`calls, cluster`policies, cluster`raised
      ensures NamespaceHandled(Configuration(), Environment(), old(State()), State(), key, err)
    {
      if key !in namespacesLister {
        return false;
      }
      for i := 0 to |defaultNetworkPolicyExcludes|
        invariant key !in defaultNetworkPolicyExcludes[..i]
      {
        if key == defaultNetworkPolicyExcludes[i] {
          return false;
        }
      }
      assert key !in defaultNetworkPolicyExcludes;
      var setting := GetDefaultNetworkpolicySetting(namespacesLister[key]);
      var names := Split(setting.value, DELIMITER);
      ghost var env, start := Environment(), State();
      for i := 0 to |names|
        invariant Environment() == env
        invariant State() == SyncNames(env, start, key, names[..i], setting.src)
      {
        assert names[..i + 1][..i] == names[..i];
        var _ := SyncNamespace(names[i], key, setting);
      }
      assert names[..|names|] == names;
      err := DeleteMultipleDefaultNetworkPolicies(key, setting);
    }

    method SyncNetworkPolicyHandler(key: string) returns (err: bool)
      modifies `defaultNetworkPolicies, cluster`calls, cluster`policies, cluster`raised
      ensures PolicyHandled(Configuration(), Environment(), old(State()), State(), key, err)
    {
      var split := SplitKey(key);
      if split.None? {
        return false;
      }
      var ns := cluster.GetNamespace(split.value.namespace);
      if ns.None? {
        return false;
      }
      var setting := GetDefaultNetworkpolicySetting(ns.value);
      var _ := SyncNetworkPolicy(split.value.namespace, split.value.name, setting);
      err := DeleteMultipleDefaultNetworkPolicies(split.value.namespace, setting);
    }
  }

  lemma {:induction false} StaysFailed(env: Env, w: World, names: seq<string>, i: nat)
    requires i <= |names| && !LoadAll(env, w, names[..i]).ok
    ensures LoadAll(env, w, names) == LoadAll(env, w, names[..i])
    decreases |names| - i
  {
    if i < |names| {
      assert names[..i + 1][..i] == names[..i];
      StaysFailed(env, w, names, i + 1);
    } else {
      assert names[..i] == names;
    }
  }
}
