/**
 What an admitted object ends up with, read off its patched document field by field, and
 when the validating pass refuses it: for every configuration, namespace and review.
 */
module AdmissionOutcomes {
  import opened Results
  import opened Text
  import opened JsonPatch
  import opened Resources
  import opened Pods
  import opened PodMutation
  import opened PodPatching
  import opened PodDefaulting
  import opened ServiceAccounts
  import opened PodStatus
  import opened Admission

  const DOMAIN := "karydia.gardener.cloud/"

  // --------------------------------------------------------- which value is in force

  /**
   The value that governs pods of the namespace, and its source: the namespace's annotation in
   kube-system and, without enforcement, elsewhere; else the configured value. While no
   configuration is loaded an annotation still counts, outside kube-system without a source.
   */
  predicate GovernsPods(config: Option<KarydiaConfig>, ns: Namespace, key: string, configured: string, value: string,
                        src: string) {
    if key in ns.annotations && (ns.name == "kube-system" || (config.Some? && !config.value.spec.enforcement)) then
      value == ns.annotations[key] && src == "namespace"
    else if config.Some? then value == configured && src == "config"
    else src == "" && value == if key in ns.annotations then ns.annotations[key] else ""
  }

  /** The same for service accounts: an annotation counts unless enforcement is on outside kube-system. */
  predicate GovernsAccounts(config: Option<KarydiaConfig>, ns: Namespace, value: string, src: string) {
    var key := DOMAIN + "automountServiceAccountToken";
    if key in ns.annotations && (ns.name == "kube-system" || config.None? || !config.value.spec.enforcement) then
      value == ns.annotations[key] && src == "namespace"
    else config.Some? && value == config.value.spec.automountServiceAccountToken && src == "config"
  }

  predicate GovernsProfile(config: Option<KarydiaConfig>, ns: Namespace, value: string, src: string) {
    GovernsPods(config, ns, DOMAIN + "seccompProfile",
                if config.Some? then config.value.spec.seccompProfile else "", value, src)
  }

  predicate GovernsContext(config: Option<KarydiaConfig>, ns: Namespace, value: string, src: string) {
    GovernsPods(config, ns, DOMAIN + "podSecurityContext",
                if config.Some? then config.value.spec.podSecurityContext else "", value, src)
  }

  // --------------------------------------------------------------- reviews that matter

  predicate Changing(review: Review) {
    review.operation == "CREATE" || review.operation == "UPDATE"
  }

  predicate Located(namespaces: map<string, Namespace>, review: Review) {
    review.namespace != "" && review.namespace in namespaces
  }

  /** A review of a pod that is not terminating. */
  ghost predicate OfLivePod(review: Review, pod: Pod) {
    && Changing(review) && review.kind == Kind("", "v1", "Pod")
    && DecodePod(review.document) == Success(pod) && !IsPodStatus(pod.status, "Terminating")
  }

  predicate OfAccount(review: Review, account: ServiceAccount) {
    && Changing(review) && review.kind == Kind("", "v1", "ServiceAccount")
    && DecodeServiceAccount(review.document) == Success(account)
  }

  lemma LiveIsNotTerminating(status: Status)
    ensures IsTerminating(status) <==> IsPodStatus(status, "Terminating")
  {
    StatusIsUnique(status);
    var reason :| IsPodStatus(status, reason);
    TerminatingCharacterised(status, reason);
  }

  /** Every other review is answered without a look at the settings. */
  lemma OtherReviewsAreAnswered(config: Option<KarydiaConfig>, namespaces: map<string, Namespace>, review: Review,
                                mutationAllowed: bool)
    requires Answerable(config, namespaces, review)
    ensures var response := AdmitResponse(config, namespaces, review, mutationAllowed);
            var isPod := review.kind == Kind("", "v1", "Pod");
            var isAccount := review.kind == Kind("", "v1", "ServiceAccount");
            && (!Changing(review) || (!isPod && !isAccount) ==> response == Response(true, "", None))
            && (Changing(review) && isPod ==>
                  match DecodePod(review.document)
                  case Failure(_) => !response.allowed && response.patch.None?
                  case Success(pod) =>
                    if IsPodStatus(pod.status, "Terminating") then response == Response(true, "", None)
                    else !Located(namespaces, review) ==> !response.allowed && response.patch.None?)
            && (Changing(review) && isAccount
                && (DecodeServiceAccount(review.document).Failure? || !Located(namespaces, review)) ==>
                  !response.allowed && response.patch.None?)
  {
    if DecodePod(review.document).Success? {
      LiveIsNotTerminating(DecodePod(review.document).value.status);
    }
  }

  // ----------------------------------------------------------------------- pods

  /** What defaulting by the governing values makes of a pod, field by field. */
  ghost predicate Configured(pod: Pod, pod': Pod, profile: string, profileSrc: string, context: string,
                             contextSrc: string) {
    && pod'.status == pod.status
    && HasProfile(pod, pod', profile, profileSrc)
    && HasIdentity(pod, pod', context, contextSrc)
    && HasContainers(pod, pod', context)
  }

  ghost predicate HasProfile(pod: Pod, pod': Pod, profile: string, src: string) {
    var key := "seccomp.security.alpha.kubernetes.io/pod";
    if profile != "" && key !in pod.annotations then
      && key in pod'.annotations && pod'.annotations[key] == profile
      && DOMAIN + "seccompProfile.internal" in pod'.annotations
      && pod'.annotations[DOMAIN + "seccompProfile.internal"] == src + "/" + profile
    else (key in pod'.annotations <==> key in pod.annotations)
         && (key in pod.annotations ==> pod'.annotations[key] == pod.annotations[key])
  }

  /** The pod states neither a user nor a group. */
  predicate Nameless(pod: Pod) {
    pod.securityContext.None?
    || (pod.securityContext.value.runAsUser == None && pod.securityContext.value.runAsGroup == None)
  }

  ghost predicate HasIdentity(pod: Pod, pod': Pod, context: string, src: string) {
    if context == "nobody" && Nameless(pod) then
      && pod'.securityContext == Some(PodSecurity(Some(65534), Some(65534)))
      && DOMAIN + "podSecurityContext.internal" in pod'.annotations
      && pod'.annotations[DOMAIN + "podSecurityContext.internal"] == src + "/" + "nobody"
    else pod'.securityContext == pod.securityContext
  }

  ghost predicate HasContainers(pod: Pod, pod': Pod, context: string) {
    && |pod'.containers| == |pod.containers|
    && forall i :: 0 <= i < |pod.containers| ==>
         pod'.containers[i] ==
           if context == "nobody" && (pod.containers[i].None? || pod.containers[i].value.allowPrivilegeEscalation.None?)
           then Some(ContainerSecurity(Some(false)))
           else pod.containers[i]
  }

  lemma DefaultedIsConfigured(pod: Pod, profile: string, profileSrc: string, context: string, contextSrc: string)
    ensures Configured(pod, DefaultedPod(pod, Setting(profile, profileSrc), Setting(context, contextSrc)),
                       profile, profileSrc, context, contextSrc)
  {
    KeysDiffer();
    var pod' := DefaultedPod(pod, Setting(profile, profileSrc), Setting(context, contextSrc));
    assert HasProfile(pod, pod', profile, profileSrc);
    assert HasIdentity(pod, pod', context, contextSrc);
  }

  lemma PodSettingsGovern(config: Option<KarydiaConfig>, ns: Namespace, profile: string, profileSrc: string,
                          context: string, contextSrc: string)
    requires GovernsProfile(config, ns, profile, profileSrc) && GovernsContext(config, ns, context, contextSrc)
    ensures SeccompSetting(config, ns) == Setting(profile, profileSrc)
    ensures SecuritySetting(config, ns) == Setting(context, contextSrc)
  {
  }

  /**
   A live pod that is admitted with mutation is, after its patch, exactly what the governing
   profile and context make of it.
   */
  lemma MutatedPodIsConfigured(config: Option<KarydiaConfig>, namespaces: map<string, Namespace>, review: Review,
                               pod: Pod, document': Json, profile: string, profileSrc: string, context: string,
                               contextSrc: string)
    requires OfLivePod(review, pod) && Located(namespaces, review)
    requires GovernsProfile(config, namespaces[review.namespace], profile, profileSrc)
    requires GovernsContext(config, namespaces[review.namespace], context, contextSrc)
    requires Patched(review.document, AdmitResponse(config, namespaces, review, true)) == Some(document')
    ensures AdmitResponse(config, namespaces, review, true).allowed
    ensures DecodePod(document').Success?
    ensures Configured(pod, DecodePod(document').value, profile, profileSrc, context, contextSrc)
  {
    var seccomp, security := Setting(profile, profileSrc), Setting(context, contextSrc);
    LiveIsNotTerminating(pod.status);
    PodSettingsGovern(config, namespaces[review.namespace], profile, profileSrc, context, contextSrc);
    PodPatchMeaning(review.document, pod, seccomp, security);
    PatchedPodDecodes(review.document, pod, seccomp, security);
    DefaultedIsConfigured(pod, profile, profileSrc, context, contextSrc);
  }

  /**
   The validating pass refuses a live pod exactly when the mutating pass would do more than
   default its containers, that is, when it lacks a governing profile or identity, and it says
   which.
   */
  lemma PodIsRefusedExactly(config: Option<KarydiaConfig>, namespaces: map<string, Namespace>, review: Review, pod: Pod,
                            profile: string, profileSrc: string, context: string, contextSrc: string)
    requires OfLivePod(review, pod) && Located(namespaces, review)
    requires GovernsProfile(config, namespaces[review.namespace], profile, profileSrc)
    requires GovernsContext(config, namespaces[review.namespace], context, contextSrc)
    ensures var mutated := AdmitResponse(config, namespaces, review, true);
            var validated := AdmitResponse(config, namespaces, review, false);
            var noProfile := profile != "" && "seccomp.security.alpha.kubernetes.io/pod" !in pod.annotations;
            var noIdentity := context == "nobody" && Nameless(pod);
            && mutated.allowed && mutated.patch.Some? && validated.patch.None?
            && (validated.allowed <==> forall op :: op in mutated.patch.value ==> InContainers(op))
            && (validated.allowed <==> !noProfile && !noIdentity)
            && (!validated.allowed ==> validated.message == RefusalMessage(pod, noProfile, noIdentity, profile))
  {
    var seccomp, security := Setting(profile, profileSrc), Setting(context, contextSrc);
    LiveIsNotTerminating(pod.status);
    PodSettingsGovern(config, namespaces[review.namespace], profile, profileSrc, context, contextSrc);
    ValidationCharacterisesMutation(pod, seccomp, security);
    MessageOfErrors(pod, profile, profileSrc, context, contextSrc);
  }

  function RefusalMessage(pod: Pod, noProfile: bool, noIdentity: bool, profile: string): string {
    var first := "seccomp profile ('seccomp.security.alpha.kubernetes.io/pod') must be '" + profile + "'";
    var second := if pod.securityContext.None? then "security context must be defined"
                  else "User or group in security context must be defined";
    "[" + (if !noIdentity then first else if !noProfile then second else first + " " + second) + "]"
  }

  lemma MessageOfErrors(pod: Pod, profile: string, profileSrc: string, context: string, contextSrc: string)
    ensures var errors := PodErrors(pod, Setting(profile, profileSrc), Setting(context, contextSrc));
            var noProfile := profile != "" && "seccomp.security.alpha.kubernetes.io/pod" !in pod.annotations;
            var noIdentity := context == "nobody" && Nameless(pod);
            && (errors == [] <==> !noProfile && !noIdentity)
            && (errors != [] ==>
                  ValidatingResponse(errors)
                  == Response(false, RefusalMessage(pod, noProfile, noIdentity, profile), None))
            && ValidatingResponse([]) == Response(true, "", None)
  {
    var errors := PodErrors(pod, Setting(profile, profileSrc), Setting(context, contextSrc));
    if |errors| == 2 {
      assert errors[1..] == [errors[1]];
      assert Join(errors, ' ') == errors[0] + " " + errors[1];
    } else if |errors| == 1 {
      assert Join(errors, ' ') == errors[0];
    }
  }

  // ------------------------------------------------------------------ service accounts

  /** The governing value covers the account, which leaves its token mount undefined. */
  predicate Covered(account: ServiceAccount, value: string) {
    && account.automountServiceAccountToken == None
    && (value == "change-all" || (value == "change-default" && account.name == "default"))
  }

  /**
   A service account that is admitted with mutation is, after its patch, exactly what the
   governing value makes of it.
   */
  lemma MutatedAccountIsConfigured(config: Option<KarydiaConfig>, namespaces: map<string, Namespace>, review: Review,
                                   account: ServiceAccount, document': Json, value: string, src: string)
    requires OfAccount(review, account) && Located(namespaces, review)
    requires GovernsAccounts(config, namespaces[review.namespace], value, src)
    requires Patched(review.document, AdmitResponse(config, namespaces, review, true)) == Some(document')
    ensures AdmitResponse(config, namespaces, review, true).allowed
    ensures DecodeServiceAccount(document') == Success(
              if Covered(account, value) then
                ServiceAccount(
                  account.name,
                  account.annotations[DOMAIN + "automountServiceAccountToken.internal" := src + "/" + value],
                  Some(false))
              else account)
  {
    var setting := Setting(value, src);
    assert AutomountSetting(config, namespaces[review.namespace]) == setting;
    AccountPatchMeaning(review.document, account, setting);
    PatchedAccountDecodes(review.document, account, setting);
  }

  /** The validating pass refuses a service account exactly when its patch is non-empty, that is, when it is covered. */
  lemma AccountIsRefusedExactly(config: Option<KarydiaConfig>, namespaces: map<string, Namespace>, review: Review,
                                account: ServiceAccount, value: string, src: string)
    requires OfAccount(review, account) && Located(namespaces, review)
    requires GovernsAccounts(config, namespaces[review.namespace], value, src)
    ensures var mutated := AdmitResponse(config, namespaces, review, true);
            var validated := AdmitResponse(config, namespaces, review, false);
            && mutated.allowed && mutated.patch.Some? && validated.patch.None?
            && (validated.allowed <==> mutated.patch.value == [])
            && (validated.allowed <==> !Covered(account, value))
            && (!validated.allowed ==>
                  validated.message == "[" + AccountMessage(value) + "]")
  {
    var setting := Setting(value, src);
    assert AutomountSetting(config, namespaces[review.namespace]) == setting;
    AccountAnswers(account, setting);
  }

  lemma AccountAnswers(account: ServiceAccount, setting: Setting)
    ensures var errors := ServiceAccountErrors(account, setting);
            && (errors == [] <==> !Covered(account, setting.value))
            && (ServiceAccountPatch(account, setting) == [] <==> !Covered(account, setting.value))
            && (errors != [] ==>
                  ValidatingResponse(errors) == Response(false, "[" + AccountMessage(setting.value) + "]", None))
            && ValidatingResponse([]) == Response(true, "", None)
  {
    var errors := ServiceAccountErrors(account, setting);
    if errors != [] {
      assert Join(errors, ' ') == errors[0];
    }
  }

  function AccountMessage(value: string): string {
    if value == "change-all" then "implicit automount of service account token not allowed"
    else "implicit automount of default service account token not allowed"
  }
}
