/**
 Defaulting and validation of pods: which patch operations and which
 validation errors one pod and one pair of settings give.
 */
module PodMutation {
  import opened Results
  import opened Text
  import opened JsonPatch
  import opened Resources
  import opened Pods

  const SECCOMP := "seccomp.security.alpha.kubernetes.io/pod"
  const KARYDIA := "karydia.gardener.cloud/"
  const SECCOMP_INTERNAL := KARYDIA + "seccompProfile.internal"
  const SECURITY_INTERNAL := KARYDIA + "podSecurityContext.internal"

  const ANNOTATIONS := "/metadata/annotations"
  const SECURITY_CONTEXT := "/spec/securityContext"
  const CONTAINERS := "/spec/containers"

  function ContainerSecurityPath(i: nat): string {
    PathTo(PathTo(CONTAINERS, Itoa(i)), "securityContext")
  }

  const NOBODY := "nobody"
  const NOBODY_ID := 65534
  const IDENTITY := Obj(map["runAsUser" := Num(NOBODY_ID), "runAsGroup" := Num(NOBODY_ID)])

  /** The value of a Patches struct. */
  datatype PatchState = PatchState(operations: seq<Operation>, annotated: bool)

  const NO_PATCHES := PatchState([], false)

  // ------------------------------------------------- specification of the patch

  function AnnotateOperation(pod: Pod, annotated: bool, key: string, value: string): Operation {
    if |pod.annotations| == 0 && !annotated then
      Add(ANNOTATIONS, Obj(map[key := Str(value)]))
    else
      Add(PathTo(ANNOTATIONS, EscapeSlash(key)), Str(value))
  }

  function Annotated(pod: Pod, st: PatchState, key: string, value: string): PatchState {
    PatchState(
      st.operations + [AnnotateOperation(pod, st.annotated, key, value)],
      st.annotated || |pod.annotations| == 0)
  }

  function Extended(st: PatchState, ops: seq<Operation>): PatchState {
    st.(operations := st.operations + ops)
  }

  predicate LacksSeccomp(pod: Pod) {
    SECCOMP !in pod.annotations
  }

  function SeccompStage(pod: Pod, setting: Setting, st: PatchState): PatchState {
    if LacksSeccomp(pod) then
      Annotated(pod, Annotated(pod, st, SECCOMP, setting.value),
                SECCOMP_INTERNAL, setting.src + "/" + setting.value)
    else st
  }

  /** Neither a user nor a group is set. */
  predicate LacksIdentity(pod: Pod) {
    pod.securityContext.None?
    || (pod.securityContext.value.runAsUser.None? && pod.securityContext.value.runAsGroup.None?)
  }

  function IdentityOperations(pod: Pod): seq<Operation> {
    if pod.securityContext.None? then
      [Add(SECURITY_CONTEXT, IDENTITY)]
    else
      [Add(PathTo(SECURITY_CONTEXT, "runAsUser"), Num(NOBODY_ID)),
       Add(PathTo(SECURITY_CONTEXT, "runAsGroup"), Num(NOBODY_ID))]
  }

  function IdentityStage(pod: Pod, setting: Setting, st: PatchState): PatchState {
    if LacksIdentity(pod) then
      Annotated(pod, Extended(st, IdentityOperations(pod)), SECURITY_INTERNAL, setting.src + "/" + setting.value)
    else st
  }

  function ContainerOperations(c: Option<ContainerSecurity>, i: nat): seq<Operation> {
    if c.None? then
      [Add(ContainerSecurityPath(i), Obj(map["allowPrivilegeEscalation" := Bool(false)]))]
    else if c.value.allowPrivilegeEscalation.None? then
      [Add(PathTo(ContainerSecurityPath(i), "allowPrivilegeEscalation"), Bool(false))]
    else []
  }

  /** The operations for the first n containers. */
  function ContainersOperations(containers: seq<Option<ContainerSecurity>>, n: nat): seq<Operation>
    requires n <= |containers|
  {
    if n == 0 then []
    else ContainersOperations(containers, n - 1) + ContainerOperations(containers[n - 1], n - 1)
  }

  function SecurityStage(pod: Pod, setting: Setting, st: PatchState): PatchState {
    if setting.value == NOBODY then
      Extended(IdentityStage(pod, setting, st), ContainersOperations(pod.containers, |pod.containers|))
    else st
  }

  /** The patch of one pod: the seccomp stage, then the security-context stage, each skipped for an empty setting. */
  function PodPatch(pod: Pod, seccomp: Setting, security: Setting): seq<Operation> {
    var st := if seccomp.value != "" then SeccompStage(pod, seccomp, NO_PATCHES) else NO_PATCHES;
    (if security.value != "" then SecurityStage(pod, security, st) else st).operations
  }

  // ------------------------------------------------------------------ the patcher

  /** The struct the mutators fill through a pointer. */
  class Patches {
    var operations: seq<Operation>
    var annotated: bool

    constructor ()
      ensures View() == NO_PATCHES
    {
      operations, annotated := [], false;
    }

    function View(): PatchState
      reads this
    {
      PatchState(operations, annotated)
    }
  }

  method AnnotatePod(pod: Pod, patches: Patches, key: string, value: string)
    modifies patches
    ensures patches.View() == Annotated(pod, old(patches.View()), key, value)
  {
    if |pod.annotations| == 0 && !patches.annotated {
      patches.operations := patches.operations + [Add(ANNOTATIONS, Obj(map[key := Str(value)]))];
      patches.annotated := true;
    } else {
      patches.operations := patches.operations + [Add(PathTo(ANNOTATIONS, EscapeSlash(key)), Str(value))];
    }
  }

  method MutatePodSeccompProfile(pod: Pod, setting: Setting, patches: Patches)
    modifies patches
    ensures patches.View() == SeccompStage(pod, setting, old(patches.View()))
  {
    if SECCOMP !in pod.annotations {
      AnnotatePod(pod, patches, SECCOMP, setting.value);
      AnnotatePod(pod, patches, SECCOMP_INTERNAL, setting.src + "/" + setting.value);
    }
  }

  method PatchContainer(c: Option<ContainerSecurity>, i: nat, patches: Patches)
    modifies patches
    ensures patches.View() == Extended(old(patches.View()), ContainerOperations(c, i))
  {
    if c.None? {
      patches.operations := patches.operations
        + [Add(ContainerSecurityPath(i), Obj(map["allowPrivilegeEscalation" := Bool(false)]))];
    } else if c.value.allowPrivilegeEscalation.None? {
      patches.operations := patches.operations
        + [Add(PathTo(ContainerSecurityPath(i), "allowPrivilegeEscalation"), Bool(false))];
    }
  }

  method MutatePodSecurityContext(pod: Pod, setting: Setting, patches: Patches)
    modifies patches
    ensures patches.View() == SecurityStage(pod, setting, old(patches.View()))
  {
    if setting.value == NOBODY {
      var uid, gid := NOBODY_ID, NOBODY_ID;
      if pod.securityContext.None? {
        patches.operations := patches.operations
          + [Add(SECURITY_CONTEXT, Obj(map["runAsUser" := Num(uid), "runAsGroup" := Num(gid)]))];
        AnnotatePod(pod, patches, SECURITY_INTERNAL, setting.src + "/" + setting.value);
      } else if pod.securityContext.value.runAsUser.None? && pod.securityContext.value.runAsGroup.None? {
        ghost var before := patches.operations;
        patches.operations := patches.operations + [Add(PathTo(SECURITY_CONTEXT, "runAsUser"), Num(uid))];
        patches.operations := patches.operations + [Add(PathTo(SECURITY_CONTEXT, "runAsGroup"), Num(gid))];
        assert patches.operations == before + IdentityOperations(pod);
        AnnotatePod(pod, patches, SECURITY_INTERNAL, setting.src + "/" + setting.value);
      }
      ghost var st := patches.View();
      assert st == IdentityStage(pod, setting, old(patches.View()));
      var containers := pod.containers;
      for i := 0 to |containers|
        invariant patches.View() == Extended(st, ContainersOperations(containers, i))
      {
        PatchContainer(containers[i], i, patches);
        assert patches.operations
            == st.operations + (ContainersOperations(containers, i) + ContainerOperations(containers[i], i));
      }
    }
  }

  method MutatePod(pod: Pod, seccomp: Setting, security: Setting) returns (operations: seq<Operation>)
    ensures operations == PodPatch(pod, seccomp, security)
  {
    var patches := new Patches();
    if seccomp.value != "" {
      MutatePodSeccompProfile(pod, seccomp, patches);
    }
    if security.value != "" {
      MutatePodSecurityContext(pod, security, patches);
    }
    operations := patches.operations;
  }

  // ------------------------------------------------------------------- validation

  function SeccompErrors(pod: Pod, setting: Setting): seq<string> {
    if LacksSeccomp(pod) then
      ["seccomp profile ('seccomp.security.alpha.kubernetes.io/pod') must be '" + setting.value + "'"]
    else []
  }

  function SecurityErrors(pod: Pod, setting: Setting): seq<string> {
    if setting.value == NOBODY && LacksIdentity(pod) then
      [if pod.securityContext.None? then "security context must be defined"
       else "User or group in security context must be defined"]
    else []
  }

  function PodErrors(pod: Pod, seccomp: Setting, security: Setting): seq<string> {
    (if seccomp.value != "" then SeccompErrors(pod, seccomp) else [])
    + (if security.value != "" then SecurityErrors(pod, security) else [])
  }

  method ValidatePodSeccompProfile(pod: Pod, setting: Setting, validationErrors: seq<string>)
    returns (errors: seq<string>)
    ensures errors == validationErrors + SeccompErrors(pod, setting)
  {
    errors := validationErrors;
    if SECCOMP !in pod.annotations {
      errors := errors
        + ["seccomp profile ('seccomp.security.alpha.kubernetes.io/pod') must be '" + setting.value + "'"];
    }
  }

  method ValidatePodSecurityContext(pod: Pod, setting: Setting, validationErrors: seq<string>)
    returns (errors: seq<string>)
    ensures errors == validationErrors + SecurityErrors(pod, setting)
  {
    errors := validationErrors;
    if setting.value == NOBODY {
      if pod.securityContext.None? {
        errors := errors + ["security context must be defined"];
      } else if pod.securityContext.value.runAsUser.None? && pod.securityContext.value.runAsGroup.None? {
        errors := errors + ["User or group in security context must be defined"];
      }
    }
  }

  method ValidatePod(pod: Pod, seccomp: Setting, security: Setting) returns (errors: seq<string>)
    ensures errors == PodErrors(pod, seccomp, security)
  {
    errors := [];
    if seccomp.value != "" {
      errors := ValidatePodSeccompProfile(pod, seccomp, errors);
    }
    if security.value != "" {
      errors := ValidatePodSecurityContext(pod, security, errors);
    }
  }

  // ------------------------------------------------ what defaulting a pod means

  function SeccompAnnotations(pod: Pod, setting: Setting): map<string, string> {
    if setting.value != "" && LacksSeccomp(pod) then
      map[SECCOMP := setting.value, SECCOMP_INTERNAL := setting.src + "/" + setting.value]
    else map[]
  }

  function SecurityAnnotations(pod: Pod, setting: Setting): map<string, string> {
    if setting.value == NOBODY && LacksIdentity(pod) then
      map[SECURITY_INTERNAL := setting.src + "/" + setting.value]
    else map[]
  }

  function AddedAnnotations(pod: Pod, seccomp: Setting, security: Setting): map<string, string> {
    SeccompAnnotations(pod, seccomp) + SecurityAnnotations(pod, security)
  }

  function DefaultedContainer(c: Option<ContainerSecurity>): Option<ContainerSecurity> {
    if c.Some? && c.value.allowPrivilegeEscalation.Some? then c
    else Some(ContainerSecurity(Some(false)))
  }

  function DefaultedContainers(containers: seq<Option<ContainerSecurity>>): seq<Option<ContainerSecurity>> {
    seq(|containers|, i requires 0 <= i < |containers| => DefaultedContainer(containers[i]))
  }

  /** The pod with its defaults filled in; nothing it states explicitly changes. */
  function DefaultedPod(pod: Pod, seccomp: Setting, security: Setting): Pod {
    var identified := security.value == NOBODY && LacksIdentity(pod);
    pod.(
      annotations := pod.annotations + AddedAnnotations(pod, seccomp, security),
      securityContext :=
        if identified then Some(PodSecurity(Some(NOBODY_ID), Some(NOBODY_ID))) else pod.securityContext,
      containers :=
        if security.value == NOBODY then DefaultedContainers(pod.containers) else pod.containers
    )
  }
}
