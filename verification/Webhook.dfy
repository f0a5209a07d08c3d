/** The webhook: a list of admission plugins asked in turn, of which at most one may patch. */
module Webhook {
  import opened Results
  import opened Resources
  import opened Pods
  import opened Admission

  type Plugin = (Review, bool) -> Response

  const ALREADY_PATCHED := Deny("cannot admit with patches, request is patched already")

  function Answer(plugin: Plugin, review: Review, mutationAllowed: bool): Response {
    plugin(review, mutationAllowed)
  }

  /** Plugin i allows and patches. */
  predicate Patches(plugins: seq<Plugin>, review: Review, mutationAllowed: bool, i: int) {
    0 <= i < |plugins| && Answer(plugins[i], review, mutationAllowed).patch.Some?
  }

  predicate AllAllow(plugins: seq<Plugin>, review: Review, mutationAllowed: bool, n: nat)
    requires n <= |plugins|
  {
    forall i :: 0 <= i < n ==> Answer(plugins[i], review, mutationAllowed).allowed
  }

  predicate OnePatch(plugins: seq<Plugin>, review: Review, mutationAllowed: bool, n: nat)
    requires n <= |plugins|
  {
    forall i, k :: 0 <= i < k < n ==>
      !Patches(plugins, review, mutationAllowed, i) || !Patches(plugins, review, mutationAllowed, k)
  }

  /** The first n plugins give no reason to refuse. */
  predicate Agreeable(plugins: seq<Plugin>, review: Review, mutationAllowed: bool, n: nat)
    requires n <= |plugins|
  {
    AllAllow(plugins, review, mutationAllowed, n) && OnePatch(plugins, review, mutationAllowed, n)
  }

  /** The answer of the patching plugin, or plain admission when no plugin patches. */
  ghost predicate IsCombined(plugins: seq<Plugin>, review: Review, mutationAllowed: bool, response: Response) {
    if exists i :: Patches(plugins, review, mutationAllowed, i) then
      exists i :: Patches(plugins, review, mutationAllowed, i)
                  && response == Answer(plugins[i], review, mutationAllowed)
    else response == ALLOW
  }

  /** Plugin k is the first that gives a reason to refuse; the response is its denial, or the conflict of patches. */
  ghost predicate IsRefusal(plugins: seq<Plugin>, review: Review, mutationAllowed: bool, k: int, response: Response) {
    && 0 <= k < |plugins|
    && Agreeable(plugins, review, mutationAllowed, k)
    && !Agreeable(plugins, review, mutationAllowed, k + 1)
    && response == (if Answer(plugins[k], review, mutationAllowed).allowed then ALREADY_PATCHED
                    else Answer(plugins[k], review, mutationAllowed))
  }

  /** The conditions leave no choice: they fit one response at most. */
  lemma ResponseIsUnique(plugins: seq<Plugin>, review: Review, mutationAllowed: bool, r1: Response, r2: Response)
    ensures Agreeable(plugins, review, mutationAllowed, |plugins|)
            && IsCombined(plugins, review, mutationAllowed, r1) && IsCombined(plugins, review, mutationAllowed, r2) ==>
              r1 == r2
    ensures (exists k :: IsRefusal(plugins, review, mutationAllowed, k, r1))
            && (exists k :: IsRefusal(plugins, review, mutationAllowed, k, r2)) ==>
              r1 == r2
  {
  }

  class Webhook {
    var admissionPlugins: seq<Plugin>

    constructor ()
      ensures admissionPlugins == []
    {
      admissionPlugins := [];
    }

    method RegisterAdmissionPlugin(plugin: Plugin)
      modifies this
      ensures admissionPlugins == old(admissionPlugins) + [plugin]
    {
      admissionPlugins := admissionPlugins + [plugin];
    }

    /** Allows exactly when every plugin allows and at most one patches, and then answers with that patch. */
    method Admit(review: Review, mutationAllowed: bool) returns (response: Response)
      ensures response.allowed <==> Agreeable(admissionPlugins, review, mutationAllowed, |admissionPlugins|)
      ensures response.allowed ==> IsCombined(admissionPlugins, review, mutationAllowed, response)
      ensures !response.allowed ==> exists k :: IsRefusal(admissionPlugins, review, mutationAllowed, k, response)
    {
      var responseWithPatches: Option<Response> := None;
      var plugins := admissionPlugins;
      for n := 0 to |plugins|
        invariant Agreeable(plugins, review, mutationAllowed, n)
        invariant responseWithPatches.None? ==> forall i :: 0 <= i < n ==> !Patches(plugins, review, mutationAllowed, i)
        invariant responseWithPatches.Some? ==>
          exists i :: 0 <= i < n && Patches(plugins, review, mutationAllowed, i)
                   && responseWithPatches.value == Answer(plugins[i], review, mutationAllowed)
      {
        response := Answer(plugins[n], review, mutationAllowed);
        if !response.allowed {
          assert IsRefusal(plugins, review, mutationAllowed, n, response);
          return;
        }
        if response.patch.Some? && responseWithPatches.None? {
          responseWithPatches := Some(response);
          assert Patches(plugins, review, mutationAllowed, n);
          continue;
        }
        if response.patch.Some? {
          response := ALREADY_PATCHED;
          assert Patches(plugins, review, mutationAllowed, n);
          assert IsRefusal(plugins, review, mutationAllowed, n, response);
          return;
        }
      }
      return if responseWithPatches.Some? then responseWithPatches.value else ALLOW;
    }
  }

  /** The admission plugin with a loaded config and the namespaces the cluster holds. */
  function KarydiaPlugin(config: KarydiaConfig, namespaces: map<string, Namespace>): Plugin {
    (review: Review, mutationAllowed: bool) => AdmitResponse(Some(config), namespaces, review, mutationAllowed)
  }

  /**
   Two copies of the plugin always refuse a live pod they both mutate, even when there is
   nothing to default: an empty mutation still counts as a patch.
   */
  lemma TwoMutatorsConflict(plugins: seq<Plugin>, config1: KarydiaConfig, config2: KarydiaConfig,
                            namespaces: map<string, Namespace>, review: Review, pod: Pod)
    requires plugins == [KarydiaPlugin(config1, namespaces), KarydiaPlugin(config2, namespaces)]
    requires !Ignored(review) && review.kind == POD && review.namespace != ""
    requires review.namespace in namespaces
    requires DecodePod(review.document) == Success(pod) && !IsTerminating(pod.status)
    ensures !Agreeable(plugins, review, true, 2)
  {
    assert Patches(plugins, review, true, 0) && Patches(plugins, review, true, 1);
  }
}
