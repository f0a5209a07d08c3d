/** The admission plugin: settings, the Admit decision, and how mutation and validation fit together. */
module Admission {
  import opened Results
  import opened Text
  import opened JsonPatch
  import opened Resources
  import opened Pods
  import opened PodMutation
  import opened PodPatching
  import opened PodDefaulting
  import opened ServiceAccounts
  import opened PodStatus

  datatype Kind = Kind(group: string, version: string, kind: string)

  const POD := Kind("", "v1", "Pod")
  const SERVICE_ACCOUNT := Kind("", "v1", "ServiceAccount")

  const KUBE_SYSTEM := "kube-system"
  const SECCOMP_PROFILE := KARYDIA + "seccompProfile"
  const POD_SECURITY_CONTEXT := KARYDIA + "podSecurityContext"
  const AUTOMOUNT_TOKEN := KARYDIA + "automountServiceAccountToken"

  /** An admission request; `document` is the raw object. */
  datatype Review = Review(operation: string, kind: Kind, namespace: string, document: Json)

  /** The response; `patch` is None for nil patch bytes. */
  datatype Response = Response(allowed: bool, message: string, patch: Option<seq<Operation>>)

  const ALLOW := Response(true, "", None)

  function Deny(message: string): Response {
    Response(false, message, None)
  }

  /** A nil operation slice marshals to the bytes of null, so even an empty mutation carries a patch. */
  function MutatingResponse(operations: seq<Operation>): Response {
    Response(true, "", Some(operations))
  }

  function ValidatingResponse(errors: seq<string>): Response {
    if |errors| > 0 then Deny("[" + Join(errors, ' ') + "]") else ALLOW
  }

  // --------------------------------------------------------------------- settings

  /** The namespace's annotation counts in kube-system, and elsewhere when a config without enforcement is loaded. */
  predicate AnnotationCounts(config: Option<KarydiaConfig>, ns: Namespace) {
    ns.name == KUBE_SYSTEM || (config.Some? && !config.value.spec.enforcement)
  }

  /**
   The seccomp and security-context resolvers share this shape. Without a config the
   annotation is used where there is one, with an empty source outside kube-system.
   */
  function PodSetting(config: Option<KarydiaConfig>, ns: Namespace, key: string,
                      fromConfig: ConfigSpec -> string): Setting {
    if key in ns.annotations && AnnotationCounts(config, ns) then Setting(ns.annotations[key], "namespace")
    else if config.Some? then Setting(fromConfig(config.value.spec), "config")
    else Setting(if key in ns.annotations then ns.annotations[key] else "", "")
  }

  function SeccompSetting(config: Option<KarydiaConfig>, ns: Namespace): Setting {
    PodSetting(config, ns, SECCOMP_PROFILE, (spec: ConfigSpec) => spec.seccompProfile)
  }

  function SecuritySetting(config: Option<KarydiaConfig>, ns: Namespace): Setting {
    PodSetting(config, ns, POD_SECURITY_CONTEXT, (spec: ConfigSpec) => spec.podSecurityContext)
  }

  /** This resolver reads the config of an unannotated namespace without checking that there is one. */
  function AutomountSetting(config: Option<KarydiaConfig>, ns: Namespace): Setting
    requires config.Some? || AUTOMOUNT_TOKEN in ns.annotations
  {
    if AUTOMOUNT_TOKEN !in ns.annotations
        || (ns.name != KUBE_SYSTEM && config.Some? && config.value.spec.enforcement) then
      Setting(config.value.spec.automountServiceAccountToken, "config")
    else Setting(ns.annotations[AUTOMOUNT_TOKEN], "namespace")
  }

  // --------------------------------------------------------------------- decision

  predicate Ignored(review: Review) {
    review.operation != "CREATE" && review.operation != "UPDATE"
  }

  /** The status of the pod is "Terminating" (see TerminatingCharacterised). */
  predicate IsTerminating(status: Status) {
    status.deleted || (AllInitDone(status.initStatuses) && MainReason(status.statuses, status.phase) == TERMINATING)
  }

  /** The namespace of the request, as the API server answers; absence stands for any failed lookup. */
  function FindNamespace(namespaces: map<string, Namespace>, review: Review): Result<Namespace> {
    if review.namespace == "" then Failure("received request with empty namespace")
    else if review.namespace in namespaces then Success(namespaces[review.namespace])
    else Failure("failed to determine pod's namespace")
  }

  /** A config is loaded, or the review does not make the service-account resolver look at the missing one. */
  predicate Answerable(config: Option<KarydiaConfig>, namespaces: map<string, Namespace>, review: Review) {
    || config.Some?
    || Ignored(review) || review.kind != SERVICE_ACCOUNT || DecodeServiceAccount(review.document).Failure?
    || FindNamespace(namespaces, review).Failure?
    || AUTOMOUNT_TOKEN in FindNamespace(namespaces, review).value.annotations
  }

  function AdmitPod(config: Option<KarydiaConfig>, ns: Namespace, pod: Pod, mutationAllowed: bool): Response {
    var seccomp, security := SeccompSetting(config, ns), SecuritySetting(config, ns);
    if mutationAllowed then MutatingResponse(PodPatch(pod, seccomp, security))
    else ValidatingResponse(PodErrors(pod, seccomp, security))
  }

  function AdmitServiceAccount(config: Option<KarydiaConfig>, ns: Namespace, account: ServiceAccount,
                               mutationAllowed: bool): Response
    requires config.Some? || AUTOMOUNT_TOKEN in ns.annotations
  {
    var setting := AutomountSetting(config, ns);
    if mutationAllowed then MutatingResponse(ServiceAccountPatch(account, setting))
    else ValidatingResponse(ServiceAccountErrors(account, setting))
  }

  function AdmitResponse(config: Option<KarydiaConfig>, namespaces: map<string, Namespace>, review: Review,
                         mutationAllowed: bool): Response
    requires Answerable(config, namespaces, review)
  {
    if Ignored(review) then ALLOW
    else if review.kind == POD then
      match DecodePod(review.document)
      case Failure(e) => Deny(e)
      case Success(pod) =>
        if IsTerminating(pod.status) then ALLOW
        else (
          match FindNamespace(namespaces, review)
          case Failure(e) => Deny(e)
          case Success(ns) => AdmitPod(config, ns, pod, mutationAllowed)
        )
    else if review.kind == SERVICE_ACCOUNT then
      match DecodeServiceAccount(review.document)
      case Failure(e) => Deny(e)
      case Success(account) =>
        match FindNamespace(namespaces, review)
        case Failure(e) => Deny(e)
        case Success(ns) => AdmitServiceAccount(config, ns, account, mutationAllowed)
    else ALLOW
  }

  // -------------------------------------------------------------------- the plugin

  class KarydiaAdmission {
    var karydiaConfig: Option<KarydiaConfig>

    constructor (config: Option<KarydiaConfig>)
      ensures karydiaConfig == config
    {
      karydiaConfig := config;
    }

    method UpdateConfig(config: KarydiaConfig)
      modifies this
      ensures karydiaConfig == Some(config)
    {
      karydiaConfig := Some(config);
    }

    method Admit(namespaces: map<string, Namespace>, review: Review, mutationAllowed: bool) returns (response: Response)
      requires Answerable(karydiaConfig, namespaces, review)
      ensures response == AdmitResponse(karydiaConfig, namespaces, review, mutationAllowed)
    {
      if Ignored(review) {
        return ALLOW;
      }
      if review.kind == POD {
        var decoded := DecodePod(review.document);
        if decoded.Failure? {
          return Deny(decoded.error);
        }
        var status := GetPodStatus(decoded.value.status);
        TerminatingCharacterised(decoded.value.status, status);
        if status == "Terminating" {
          return ALLOW;
        }
        var ns := FindNamespace(namespaces, review);
        if ns.Failure? {
          return Deny(ns.error);
        }
        var seccomp, security := SeccompSetting(karydiaConfig, ns.value), SecuritySetting(karydiaConfig, ns.value);
        if mutationAllowed {
          var operations := MutatePod(decoded.value, seccomp, security);
          return MutatingResponse(operations);
        }
        var errors := ValidatePod(decoded.value, seccomp, security);
        return ValidatingResponse(errors);
      } else if review.kind == SERVICE_ACCOUNT {
        var decoded := DecodeServiceAccount(review.document);
        if decoded.Failure? {
          return Deny(decoded.error);
        }
        var ns := FindNamespace(namespaces, review);
        if ns.Failure? {
          return Deny(ns.error);
        }
        var setting := AutomountSetting(karydiaConfig, ns.value);
        if mutationAllowed {
          var patches := new Patches();
          if setting.value != "" {
            MutateServiceAccountTokenMount(decoded.value, setting, patches);
          }
          assert patches.operations == ServiceAccountPatch(decoded.value, setting);
          return MutatingResponse(patches.operations);
        }
        var errors := [];
        if setting.value != "" {
          errors := ValidateServiceAccountTokenMount(decoded.value, setting, errors);
        }
        assert errors == ServiceAccountErrors(decoded.value, setting);
        return ValidatingResponse(errors);
      }
      return ALLOW;
    }
  }

  // ------------------------------------------------- mutation, then validation

  /** The document after the response's patch; no patch leaves it as it is. */
  function Patched(document: Json, response: Response): Option<Json> {
    if response.patch.None? then Some(document) else ApplyPatch(document, response.patch.value)
  }

  /** A pod's patch does not change what its status is computed from. */
  lemma PatchKeepsStatus(document: Json, pod: Pod, seccomp: Setting, security: Setting)
    requires DecodePod(document) == Success(pod)
    requires ApplyPatch(document, PodPatch(pod, seccomp, security)).Some?
    ensures var patched := DecodePod(ApplyPatch(document, PodPatch(pod, seccomp, security)).value);
            patched.Success? && patched.value.status == pod.status
  {
    PodPatchMeaning(document, pod, seccomp, security);
    PatchedPodDecodes(document, pod, seccomp, security);
  }

  lemma DefaultedPodIsValid(pod: Pod, seccomp: Setting, security: Setting)
    ensures PodErrors(DefaultedPod(pod, seccomp, security), seccomp, security) == []
  {
    AddedSeccomp(pod, seccomp, security);
  }

  lemma PodAdmittedTwice(config: Option<KarydiaConfig>, ns: Namespace, document: Json, pod: Pod, document': Json)
    requires DecodePod(document) == Success(pod)
    requires Patched(document, AdmitPod(config, ns, pod, true)) == Some(document')
    ensures DecodePod(document').Success?
    ensures var pod' := DecodePod(document').value;
            && pod'.status == pod.status
            && AdmitPod(config, ns, pod', false) == ALLOW
            && AdmitPod(config, ns, pod', true) == MutatingResponse([])
  {
    var seccomp, security := SeccompSetting(config, ns), SecuritySetting(config, ns);
    PodPatchMeaning(document, pod, seccomp, security);
    PatchedPodDecodes(document, pod, seccomp, security);
    DefaultedPodIsValid(pod, seccomp, security);
    MutationIsIdempotent(pod, seccomp, security);
  }

  lemma AccountAdmittedTwice(config: Option<KarydiaConfig>, ns: Namespace, document: Json, account: ServiceAccount,
                             document': Json)
    requires config.Some? || AUTOMOUNT_TOKEN in ns.annotations
    requires DecodeServiceAccount(document) == Success(account)
    requires Patched(document, AdmitServiceAccount(config, ns, account, true)) == Some(document')
    ensures DecodeServiceAccount(document').Success?
    ensures var account' := DecodeServiceAccount(document').value;
            && AdmitServiceAccount(config, ns, account', false) == ALLOW
            && AdmitServiceAccount(config, ns, account', true) == MutatingResponse([])
  {
    var setting := AutomountSetting(config, ns);
    AccountPatchMeaning(document, account, setting);
    PatchedAccountDecodes(document, account, setting);
    AccountMutationIsIdempotent(account, setting);
    AccountValidationCharacterisesMutation(DefaultedAccount(account, setting), setting);
  }

  /**
   Whatever the mutating pass admits and patches, the validating pass admits, and
   mutating it once more changes nothing.
   */
  lemma MutatedIsAdmitted(config: Option<KarydiaConfig>, namespaces: map<string, Namespace>, review: Review,
                          document': Json)
    requires Answerable(config, namespaces, review)
    requires AdmitResponse(config, namespaces, review, true).allowed
    requires Patched(review.document, AdmitResponse(config, namespaces, review, true)) == Some(document')
    ensures AdmitResponse(config, namespaces, review.(document := document'), false) == ALLOW
    ensures var again := AdmitResponse(config, namespaces, review.(document := document'), true);
            again.allowed && (again.patch.None? || again.patch == Some([]))
  {
    if !Ignored(review) {
      if review.kind == POD {
        var pod := DecodePod(review.document).value;
        if !IsTerminating(pod.status) {
          PodAdmittedTwice(config, namespaces[review.namespace], review.document, pod, document');
        }
      } else if review.kind == SERVICE_ACCOUNT {
        var account := DecodeServiceAccount(review.document).value;
        AccountAdmittedTwice(config, namespaces[review.namespace], review.document, account, document');
      }
    }
  }

  // ------------------------------------------------------------------ enforcement

  /** Two versions of a cluster's namespaces that differ at most in annotations outside kube-system. */
  predicate SameButAnnotations(first: map<string, Namespace>, second: map<string, Namespace>) {
    && first.Keys == second.Keys
    && forall n :: n in first ==>
         && first[n].name == second[n].name
         && (first[n].name == KUBE_SYSTEM ==> first[n] == second[n])
  }

  lemma SettingsUnderEnforcement(config: KarydiaConfig, first: Namespace, second: Namespace)
    requires config.spec.enforcement
    requires first.name == second.name && (first.name == KUBE_SYSTEM ==> first == second)
    ensures SeccompSetting(Some(config), first) == SeccompSetting(Some(config), second)
    ensures SecuritySetting(Some(config), first) == SecuritySetting(Some(config), second)
    ensures AutomountSetting(Some(config), first) == AutomountSetting(Some(config), second)
  {
  }

  /** With enforcement on, no namespace annotation outside kube-system influences any admission response. */
  lemma EnforcementIgnoresAnnotations(config: KarydiaConfig, first: map<string, Namespace>,
                                      second: map<string, Namespace>,
                                      review: Review, mutationAllowed: bool)
    requires config.spec.enforcement && SameButAnnotations(first, second)
    ensures AdmitResponse(Some(config), first, review, mutationAllowed)
         == AdmitResponse(Some(config), second, review, mutationAllowed)
  {
    if review.namespace in first {
      SettingsUnderEnforcement(config, first[review.namespace], second[review.namespace]);
    }
  }

  /** Without enforcement they do: some annotation of the namespace always changes its seccomp setting. */
  lemma AnnotationsCountWithoutEnforcement(config: KarydiaConfig, ns: Namespace)
    requires !config.spec.enforcement
    ensures exists annotations ::
              SeccompSetting(Some(config), ns.(annotations := annotations)) != SeccompSetting(Some(config), ns)
  {
    var other := SeccompSetting(Some(config), ns).value + "x";
    var annotated := ns.(annotations := map[SECCOMP_PROFILE := other]);
    assert SeccompSetting(Some(config), annotated).value == other;
    assert ns.(annotations := annotated.annotations) == annotated;
  }

  /**
   Exactly when the service accounts of kube-system are left alone: when what applies there,
   the namespace's annotation or else the configuration, is neither of the two defaulting
   settings. Being kube-system does not exempt them.
   */
  lemma KubeSystemExemptExactly(config: KarydiaConfig, ns: Namespace)
    requires ns.name == KUBE_SYSTEM
    ensures (forall account :: ServiceAccountPatch(account, AutomountSetting(Some(config), ns)) == []) <==>
              var value := if AUTOMOUNT_TOKEN in ns.annotations then ns.annotations[AUTOMOUNT_TOKEN]
                           else config.spec.automountServiceAccountToken;
              value != "change-all" && value != "change-default"
  {
    var plain := ServiceAccount("default", map[], None);
    var setting := AutomountSetting(Some(config), ns);
    if setting.value == "change-all" || setting.value == "change-default" {
      assert LacksAutomount(plain, setting);
      assert ServiceAccountPatch(plain, setting) != [];
    }
  }
}
