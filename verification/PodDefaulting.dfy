/**
 Consequences of the meaning of a pod's patch: what is decoded from the patched
 document, what stays untouched, idempotence, staging, and the link between
 validation and mutation.
 */
module PodDefaulting {
  import opened Results
  import opened Text
  import opened JsonPatch
  import opened Resources
  import opened Pods
  import opened PodMutation
  import opened PodPatching

  // -------------------------------------------- what the patched document decodes to

  lemma DecodedTexts(annotations: Members, decoded: map<string, string>, added: map<string, string>)
    requires AsStringMap(Some(Obj(annotations))) == Success(decoded)
    ensures AsStringMap(Some(Obj(annotations + Texts(added)))) == Success(decoded + added)
  {
    var merged := annotations + Texts(added);
    assert forall k :: k in merged ==> IsText(merged[k]);
    assert (map k | k in merged :: TextOf(merged[k])) == decoded + added;
  }

  lemma DecodedContainer(c: Json, decoded: Option<ContainerSecurity>)
    requires c.Obj? && DecodeContainer(c) == Success(decoded)
    ensures DecodeContainer(DefaultedContainerJson(c)) == Success(DefaultedContainer(decoded))
  {
  }

  lemma DecodedIdentity(spec: Members, pod: Pod)
    requires DecodePodSecurity(Member(Obj(spec), "securityContext")) == Success(pod.securityContext)
    ensures DecodePodSecurity(Member(Obj(IdentifiedSpec(spec)), "securityContext"))
         == Success(Some(PodSecurity(Some(NOBODY_ID), Some(NOBODY_ID))))
  {
  }

  lemma EachDetermined<T>(elems: seq<Json>, decode: Json -> Result<T>, expected: seq<T>)
    requires |expected| == |elems|
    requires forall i :: 0 <= i < |elems| ==> decode(elems[i]) == Success(expected[i])
    ensures DecodeEach(elems, decode) == Success(expected)
  {
    var r := DecodeEach(elems, decode);
    assert forall i :: 0 <= i < |elems| ==> decode(elems[i]) == Success(r.value[i]);
    assert r.value == expected;
  }

  lemma DecodedSpec(spec: Members, pod: Pod, identify: bool)
    requires DecodePodSecurity(Member(Obj(spec), "securityContext")) == Success(pod.securityContext)
    requires AsList(Member(Obj(spec), "containers")).Success?
    requires |ContainersJson(spec)| == |pod.containers| && AllObjects(ContainersJson(spec))
    requires forall i :: 0 <= i < |pod.containers| ==>
              DecodeContainer(ContainersJson(spec)[i]) == Success(pod.containers[i])
    ensures var spec' := DefaultedSpec(spec, identify);
            && DecodePodSecurity(Member(Obj(spec'), "securityContext"))
               == Success(if identify then Some(PodSecurity(Some(NOBODY_ID), Some(NOBODY_ID))) else pod.securityContext)
            && AsList(Member(Obj(spec'), "containers"))
               == Success(DefaultedContainersJson(ContainersJson(spec), |ContainersJson(spec)|))
            && Member(Obj(spec'), "initContainers") == Member(Obj(spec), "initContainers")
  {
    if identify {
      DecodedIdentity(spec, pod);
    }
    assert AsList(Member(Obj(spec), "containers")) == Success(ContainersJson(spec));
    if ContainersJson(spec) == [] {
      assert DefaultedContainersJson([], 0) == [];
    }
  }

  lemma DecodedContainerList(elems: seq<Json>, containers: seq<Option<ContainerSecurity>>)
    requires |elems| == |containers| && AllObjects(elems)
    requires forall i :: 0 <= i < |containers| ==> DecodeContainer(elems[i]) == Success(containers[i])
    ensures DecodeEach(DefaultedContainersJson(elems, |elems|), DecodeContainer)
         == Success(DefaultedContainers(containers))
  {
    var defaulted := DefaultedContainersJson(elems, |elems|);
    forall i | 0 <= i < |elems|
      ensures DecodeContainer(defaulted[i]) == Success(DefaultedContainer(containers[i]))
    {
      DecodedContainer(elems[i], containers[i]);
    }
    EachDetermined(defaulted, DecodeContainer, DefaultedContainers(containers));
  }

  /** The parts of a pod's document that decoding reads. */
  predicate Reads(j: Json, metadata: Members, spec: Members, pod: Pod) {
    && j.Obj?
    && AsStruct(Member(j, "metadata")) == Success(Obj(metadata))
    && AsStruct(Member(j, "spec")) == Success(Obj(spec))
    && AsStringMap(Member(Obj(metadata), "annotations")) == Success(pod.annotations)
    && DecodePodSecurity(Member(Obj(spec), "securityContext")) == Success(pod.securityContext)
    && AsList(Member(Obj(spec), "containers")).Success?
    && DecodeEach(AsList(Member(Obj(spec), "containers")).value, DecodeContainer) == Success(pod.containers)
    && DecodeStatus(Member(Obj(metadata), "deletionTimestamp"), Member(Obj(spec), "initContainers"),
                    Member(j, "status"))
       == Success(pod.status)
  }

  lemma DecodeReads(j: Json, pod: Pod)
    ensures DecodePod(j) == Success(pod) <==> Reads(j, MembersOf(j, "metadata"), MembersOf(j, "spec"), pod)
  {
  }

  lemma DefaultedMetadata(j: Json, pod: Pod, seccomp: Setting, security: Setting)
    requires DecodePod(j) == Success(pod)
    requires Receptive(j, pod, seccomp, security)
    ensures var metadata := MembersOf(j, "metadata");
            var metadata' := MembersOf(DefaultedDocument(j, pod, seccomp, security), "metadata");
            && AsStringMap(Member(Obj(metadata'), "annotations"))
               == Success(pod.annotations + AddedAnnotations(pod, seccomp, security))
            && Member(Obj(metadata'), "deletionTimestamp") == Member(Obj(metadata), "deletionTimestamp")
            && AsStruct(Member(DefaultedDocument(j, pod, seccomp, security), "metadata")) == Success(Obj(metadata'))
  {
    var added := AddedAnnotations(pod, seccomp, security);
    DecodeReads(j, pod);
    MetadataAfter(j, Merged(j, added),
      if security.value == NOBODY then Some(DefaultedSpec(MembersOf(j, "spec"), LacksIdentity(pod))) else None);
    MergedDecodes(j, pod, added);
  }

  lemma MetadataAfter(j: Json, annotations: Option<Members>, spec: Option<Members>)
    requires j.Obj? && AsStruct(Member(j, "metadata")) == Success(Obj(MembersOf(j, "metadata")))
    requires annotations.Some? ==> HasObject(j, "metadata")
    requires spec.Some? ==> HasObject(j, "spec")
    ensures var doc := Rewritten(j, annotations, spec);
            var metadata, metadata' := MembersOf(j, "metadata"), MembersOf(doc, "metadata");
            && AsStruct(Member(doc, "metadata")) == Success(Obj(metadata'))
            && Member(Obj(metadata'), "annotations") ==
               (if annotations.None? then Member(Obj(metadata), "annotations") else Some(Obj(annotations.value)))
            && Member(Obj(metadata'), "deletionTimestamp") == Member(Obj(metadata), "deletionTimestamp")
  {
    RewrittenParts(j, annotations, spec);
  }

  lemma RewrittenParts(j: Json, annotations: Option<Members>, spec: Option<Members>)
    requires j.Obj?
    requires annotations.Some? ==> HasObject(j, "metadata")
    requires spec.Some? ==> HasObject(j, "spec")
    ensures var doc := Rewritten(j, annotations, spec);
            && Member(doc, "metadata") == (if annotations.None? then Member(j, "metadata")
                 else Some(Obj(MembersOf(j, "metadata")["annotations" := Obj(annotations.value)])))
            && Member(doc, "spec") == (if spec.None? then Member(j, "spec") else Some(Obj(spec.value)))
            && Member(doc, "status") == Member(j, "status")
  {
  }

  lemma AnnotationsDecode(j: Json, pod: Pod)
    requires DecodePod(j) == Success(pod)
    ensures AsStringMap(Some(Obj(AnnotationsOf(j)))) == Success(pod.annotations)
  {
    if AnnotationsOf(j) == map[] {
      DecodedAnnotations(j, pod);
      assert pod.annotations == map[];
    }
  }

  lemma MergedDecodes(j: Json, pod: Pod, added: map<string, string>)
    requires DecodePod(j) == Success(pod)
    ensures added == map[] ==> pod.annotations + added == pod.annotations
    ensures added != map[] ==>
              AsStringMap(Some(Obj(AnnotationsOf(j) + Texts(added)))) == Success(pod.annotations + added)
  {
    AnnotationsDecode(j, pod);
    DecodedTexts(AnnotationsOf(j), pod.annotations, added);
  }

  /** The patched document decodes to exactly the defaulted pod. */
  lemma PatchedPodDecodes(j: Json, pod: Pod, seccomp: Setting, security: Setting)
    requires DecodePod(j) == Success(pod)
    requires Receptive(j, pod, seccomp, security)
    ensures DecodePod(DefaultedDocument(j, pod, seccomp, security)) == Success(DefaultedPod(pod, seccomp, security))
  {
    var doc := DefaultedDocument(j, pod, seccomp, security);
    var pod' := DefaultedPod(pod, seccomp, security);
    var spec := MembersOf(j, "spec");
    DecodeReads(j, pod);
    DecodeReads(doc, pod');
    DefaultedMetadata(j, pod, seccomp, security);
    var added := AddedAnnotations(pod, seccomp, security);
    RewrittenParts(j, Merged(j, added),
      if security.value == NOBODY then Some(DefaultedSpec(spec, LacksIdentity(pod))) else None);
    if security.value == NOBODY {
      SpecReads(j, pod);
    }
  }

  lemma SpecReads(j: Json, pod: Pod)
    requires DecodePod(j) == Success(pod)
    requires HasObject(j, "spec") && AllObjects(ContainersJson(MembersOf(j, "spec")))
    ensures var spec, spec' := MembersOf(j, "spec"), DefaultedSpec(MembersOf(j, "spec"), LacksIdentity(pod));
            && DecodePodSecurity(Member(Obj(spec'), "securityContext")) == Success(
                 if LacksIdentity(pod) then Some(PodSecurity(Some(NOBODY_ID), Some(NOBODY_ID)))
                 else pod.securityContext)
            && AsList(Member(Obj(spec'), "containers")).Success?
            && DecodeEach(AsList(Member(Obj(spec'), "containers")).value, DecodeContainer)
               == Success(DefaultedContainers(pod.containers))
            && Member(Obj(spec'), "initContainers") == Member(Obj(spec), "initContainers")
  {
    var spec := MembersOf(j, "spec");
    DecodedContainers(j, pod);
    DecodedSpec(spec, pod, LacksIdentity(pod));
    DecodedContainerList(ContainersJson(spec), pod.containers);
  }

  // ------------------------------------------------------------------ idempotence

  lemma {:induction false} NoContainerOperations(containers: seq<Option<ContainerSecurity>>, n: nat)
    requires n <= |containers|
    requires forall i :: 0 <= i < n ==> containers[i].Some? && containers[i].value.allowPrivilegeEscalation.Some?
    ensures ContainersOperations(containers, n) == []
  {
    if n > 0 {
      NoContainerOperations(containers, n - 1);
    }
  }

  lemma AddedSeccomp(pod: Pod, seccomp: Setting, security: Setting)
    ensures seccomp.value != "" ==> SECCOMP in DefaultedPod(pod, seccomp, security).annotations
  {
  }

  /** Mutating a pod that already has its defaults emits no operation. */
  lemma MutationIsIdempotent(pod: Pod, seccomp: Setting, security: Setting)
    ensures PodPatch(DefaultedPod(pod, seccomp, security), seccomp, security) == []
  {
    var pod' := DefaultedPod(pod, seccomp, security);
    AddedSeccomp(pod, seccomp, security);
    assert SeccompPatch(pod', seccomp) == NO_PATCHES;
    if security.value == NOBODY {
      assert !LacksIdentity(pod');
      NoContainerOperations(pod'.containers, |pod'.containers|);
    }
  }

  /**
   What a pod states explicitly stays: its profile, its user or group, its containers' flags,
   all its other annotations.
   */
  lemma ExplicitValuesKept(pod: Pod, seccomp: Setting, security: Setting)
    ensures var pod' := DefaultedPod(pod, seccomp, security);
            && (forall k :: k in pod.annotations && k != SECCOMP_INTERNAL && k != SECURITY_INTERNAL ==>
                  k in pod'.annotations && pod'.annotations[k] == pod.annotations[k])
            && (!LacksIdentity(pod) ==> pod'.securityContext == pod.securityContext)
            && |pod'.containers| == |pod.containers|
            && (forall i :: 0 <= i < |pod.containers| && pod.containers[i].Some?
                            && pod.containers[i].value.allowPrivilegeEscalation.Some? ==>
                  pod'.containers[i] == pod.containers[i])
            && pod'.status == pod.status
  {
    KeysDiffer();
    assert forall k :: k in AddedAnnotations(pod, seccomp, security) && k in pod.annotations ==>
      k == SECCOMP_INTERNAL || k == SECURITY_INTERNAL;
  }

  // ---------------------------------------------------------------------- staging

  const UNSET := Setting("", "")

  /**
   The patch is computed in one pass from the original pod, yet it is operation
   for operation the seccomp patch followed by the security patch of the pod
   with the seccomp patch applied.
   */
  lemma StagedPatch(pod: Pod, seccomp: Setting, security: Setting)
    ensures PodPatch(pod, seccomp, security)
         == PodPatch(pod, seccomp, UNSET) + PodPatch(DefaultedPod(pod, seccomp, UNSET), UNSET, security)
  {
    var staged := DefaultedPod(pod, seccomp, UNSET);
    PatchParts(pod, seccomp, security);
    SeccompAlone(pod, seccomp);
    SecurityAlone(staged, security);
    SeccompFlag(pod, seccomp);
    SameAppends(pod, SeccompPatch(pod, seccomp).annotated, staged, false, security);
  }

  /** What the security stage appends; the patch so far matters only through whether it made the annotations object. */
  function SecurityAppends(pod: Pod, security: Setting, annotated: bool): seq<Operation> {
    if security.value != NOBODY then []
    else
      (if LacksIdentity(pod) then
         IdentityOperations(pod)
         + [AnnotateOperation(pod, annotated, SECURITY_INTERNAL, security.src + "/" + security.value)]
       else [])
      + ContainersOperations(pod.containers, |pod.containers|)
  }

  lemma PatchParts(pod: Pod, seccomp: Setting, security: Setting)
    ensures PodPatch(pod, seccomp, security)
         == SeccompPatch(pod, seccomp).operations
            + SecurityAppends(pod, security, SeccompPatch(pod, seccomp).annotated)
  {
    var st := SeccompPatch(pod, seccomp);
    var appends := SecurityAppends(pod, security, st.annotated);
    if security.value == NOBODY {
      SecurityStageAppends(pod, security, st);
    } else {
      assert st.operations + appends == st.operations;
    }
  }

  lemma SecurityStageAppends(pod: Pod, security: Setting, st: PatchState)
    requires security.value == NOBODY
    ensures SecurityStage(pod, security, st).operations == st.operations + SecurityAppends(pod, security, st.annotated)
  {
    var containers := ContainersOperations(pod.containers, |pod.containers|);
    if LacksIdentity(pod) {
      var ids := IdentityOperations(pod);
      var op := AnnotateOperation(pod, st.annotated, SECURITY_INTERNAL, security.src + "/" + security.value);
      assert (st.operations + ids) + [op] == st.operations + (ids + [op]);
      assert (st.operations + (ids + [op])) + containers == st.operations + ((ids + [op]) + containers);
    }
  }

  lemma SeccompAlone(pod: Pod, seccomp: Setting)
    ensures PodPatch(pod, seccomp, UNSET) == SeccompPatch(pod, seccomp).operations
  {
  }

  lemma SecurityAlone(pod: Pod, security: Setting)
    ensures PodPatch(pod, UNSET, security) == SecurityAppends(pod, security, false)
  {
    PatchParts(pod, UNSET, security);
    var appends := SecurityAppends(pod, security, false);
    assert [] + appends == appends;
  }

  lemma SameAppends(pod: Pod, annotated: bool, pod': Pod, annotated': bool, security: Setting)
    requires pod.securityContext == pod'.securityContext && pod.containers == pod'.containers
    requires (|pod.annotations| == 0 && !annotated) <==> (|pod'.annotations| == 0 && !annotated')
    ensures SecurityAppends(pod, security, annotated) == SecurityAppends(pod', security, annotated')
  {
  }

  /** The flag is set exactly when the first stage created the annotations object. */
  lemma SeccompFlag(pod: Pod, seccomp: Setting)
    ensures var staged := DefaultedPod(pod, seccomp, UNSET);
            |staged.annotations| == 0 <==> |pod.annotations| == 0 && !SeccompPatch(pod, seccomp).annotated
  {
    var staged := DefaultedPod(pod, seccomp, UNSET);
    if seccomp.value != "" && LacksSeccomp(pod) {
      assert SECCOMP in staged.annotations;
    } else {
      assert staged.annotations == pod.annotations;
    }
  }

  // ------------------------------------------------------- validation and mutation

  /** An operation below spec.containers, that is, a container default. */
  predicate InContainers(op: Operation) {
    match ParsePointer(op.path)
    case None => false
    case Some(ptr) => |ptr| >= 2 && ptr[0] == "spec" && ptr[1] == "containers"
  }

  lemma ContainerOperationInside(c: Option<ContainerSecurity>, i: nat)
    ensures forall op :: op in ContainerOperations(c, i) ==> InContainers(op)
  {
    var security := ["spec", "containers", Itoa(i), "securityContext"];
    ContainerPath(i);
    ExtendPlainPath(ContainerSecurityPath(i), security, "allowPrivilegeEscalation");
    var member := security + ["allowPrivilegeEscalation"];
    assert member[0] == "spec" && member[1] == "containers";
  }

  lemma {:induction false} ContainerOperationsStayInside(containers: seq<Option<ContainerSecurity>>, n: nat)
    requires n <= |containers|
    ensures forall op :: op in ContainersOperations(containers, n) ==> InContainers(op)
  {
    if n > 0 {
      ContainerOperationsStayInside(containers, n - 1);
      ContainerOperationInside(containers[n - 1], n - 1);
    }
  }

  lemma AnnotationsStayOutside(pod: Pod, annotated: bool, key: string, value: string)
    requires '~' !in key
    ensures !InContainers(AnnotateOperation(pod, annotated, key, value))
  {
    AnnotationsPath();
    ExtendPath(ANNOTATIONS, ["metadata", "annotations"], key);
    assert (["metadata", "annotations"] + [key])[0] == "metadata";
  }

  /** A pod fails validation exactly when its patch does more than default containers. */
  lemma ValidationCharacterisesMutation(pod: Pod, seccomp: Setting, security: Setting)
    ensures PodErrors(pod, seccomp, security) != []
       <==> exists op :: op in PodPatch(pod, seccomp, security) && !InContainers(op)
  {
    var ops := PodPatch(pod, seccomp, security);
    ContainerOperationsStayInside(pod.containers, |pod.containers|);
    if seccomp.value != "" && LacksSeccomp(pod) {
      NoTildeInSeccomp();
      var op := AnnotateOperation(pod, false, SECCOMP, seccomp.value);
      AnnotationsStayOutside(pod, false, SECCOMP, seccomp.value);
      assert op == SeccompPatch(pod, seccomp).operations[0];
      assert op in ops;
    } else if security.value == NOBODY && LacksIdentity(pod) {
      NoTildeInSecurityInternal();
      var value := security.src + "/" + security.value;
      var op := AnnotateOperation(pod, false, SECURITY_INTERNAL, value);
      AnnotationsStayOutside(pod, false, SECURITY_INTERNAL, value);
      assert op in IdentityStage(pod, security, NO_PATCHES).operations;
      assert op in ops;
    }
  }

  // ------------------------------------------------------- what a patch leaves alone

  predicate Changes(c: Option<ContainerSecurity>) {
    DefaultedContainer(c) != c
  }

  /** The location is on another branch than every location the defaults are written to. */
  predicate Beside(q: Pointer, pod: Pod, seccomp: Setting, security: Setting) {
    && (forall k :: k in AddedAnnotations(pod, seccomp, security) ==> Apart(["metadata", "annotations", k], q))
    && (security.value == NOBODY ==>
          && (LacksIdentity(pod) ==> BesideIdentity(["spec"], q))
          && BesideContainers(["spec", "containers"], pod.containers, q))
  }

  predicate BesideIdentity(front: Pointer, q: Pointer) {
    Apart(front + ["securityContext", "runAsUser"], q) && Apart(front + ["securityContext", "runAsGroup"], q)
  }

  predicate BesideContainers(front: Pointer, containers: seq<Option<ContainerSecurity>>, q: Pointer) {
    forall i :: 0 <= i < |containers| && Changes(containers[i]) ==>
      Apart(front + [Itoa(i), "securityContext", "allowPrivilegeEscalation"], q)
  }

  lemma ApartTail(token: string, tail: Pointer, q: Pointer)
    requires Apart([token] + tail, q)
    ensures q != [] && (q[0] == token ==> Apart(tail, q[1..]))
  {
    assert ([token] + tail)[1..] == tail;
  }

  lemma ContainerFrame(c: Json, decoded: Option<ContainerSecurity>, q: Pointer)
    requires DecodeContainer(c) == Success(decoded)
    requires Changes(decoded) ==> Apart(["securityContext", "allowPrivilegeEscalation"], q)
    ensures Get(DefaultedContainerJson(c), q) == Get(c, q)
  {
    if Changes(decoded) {
      assert ["securityContext", "allowPrivilegeEscalation"] == ["securityContext"] + ["allowPrivilegeEscalation"];
      ApartTail("securityContext", ["allowPrivilegeEscalation"], q);
      if c.Obj? && q[0] == "securityContext" {
        assert ["allowPrivilegeEscalation"] == ["allowPrivilegeEscalation"] + [];
        ApartTail("allowPrivilegeEscalation", [], q[1..]);
        assert !Apart([], q[1..][1..]);
      }
    }
  }

  lemma ContainersFrame(elems: seq<Json>, containers: seq<Option<ContainerSecurity>>, q: Pointer)
    requires |elems| == |containers|
    requires forall i :: 0 <= i < |elems| ==> DecodeContainer(elems[i]) == Success(containers[i])
    requires BesideContainers([], containers, q)
    ensures Get(Arr(DefaultedContainersJson(elems, |elems|)), q) == Get(Arr(elems), q)
  {
    var defaulted := DefaultedContainersJson(elems, |elems|);
    if q == [] {
      forall i | 0 <= i < |elems|
        ensures defaulted[i] == elems[i]
      {
        var target := [] + [Itoa(i), "securityContext", "allowPrivilegeEscalation"];
        assert !Apart(target, q);
        ContainerFrame(elems[i], containers[i], []);
      }
      assert defaulted == elems;
    } else if ParseIndex(q[0]).Some? && ParseIndex(q[0]).value < |elems| {
      var i := ParseIndex(q[0]).value;
      IndexRoundTrip(i, q[0]);
      if Changes(containers[i]) {
        var tail := ["securityContext", "allowPrivilegeEscalation"];
        assert [] + [Itoa(i), "securityContext", "allowPrivilegeEscalation"] == [Itoa(i)] + tail;
        ApartTail(Itoa(i), tail, q);
      }
      ContainerFrame(elems[i], containers[i], q[1..]);
    }
  }

  lemma IdentityFrame(spec: Members, q: Pointer)
    requires DecodePodSecurity(Member(Obj(spec), "securityContext")).Success?
    requires BesideIdentity([], q)
    ensures Get(Obj(IdentifiedSpec(spec)), q) == Get(Obj(spec), q)
  {
    assert [] + ["securityContext", "runAsUser"] == ["securityContext"] + (["runAsUser"] + []);
    assert [] + ["securityContext", "runAsGroup"] == ["securityContext"] + (["runAsGroup"] + []);
    ApartTail("securityContext", ["runAsUser"] + [], q);
    if q[0] == "securityContext" {
      ApartTail("runAsUser", [], q[1..]);
      ApartTail("runAsGroup", [], q[1..]);
      assert !Apart([], q[1..][1..]);
    }
  }

  lemma SpecFrame(spec: Members, identify: bool, containers: seq<Option<ContainerSecurity>>, q: Pointer)
    requires DecodePodSecurity(Member(Obj(spec), "securityContext")).Success?
    requires |ContainersJson(spec)| == |containers|
    requires forall i :: 0 <= i < |containers| ==> DecodeContainer(ContainersJson(spec)[i]) == Success(containers[i])
    requires identify ==> BesideIdentity([], q)
    requires BesideContainers(["containers"], containers, q)
    ensures Get(Obj(DefaultedSpec(spec, identify)), q) == Get(Obj(spec), q)
  {
    var elems := ContainersJson(spec);
    var defaulted := DefaultedContainersJson(elems, |elems|);
    var identified := if identify then IdentifiedSpec(spec) else spec;
    if identify {
      IdentityFrame(spec, q);
    }
    if elems != [] {
      if q == [] || q[0] == "containers" {
        var r := if q == [] then [] else q[1..];
        forall i | 0 <= i < |containers| && Changes(containers[i])
          ensures Apart([] + [Itoa(i), "securityContext", "allowPrivilegeEscalation"], r)
        {
          var tail := [] + [Itoa(i), "securityContext", "allowPrivilegeEscalation"];
          assert ["containers"] + [Itoa(i), "securityContext", "allowPrivilegeEscalation"] == ["containers"] + tail;
          ApartTail("containers", tail, q);
        }
        ContainersFrame(elems, containers, r);
        if q == [] {
          assert identified["containers" := Arr(elems)] == identified;
        }
      }
    }
  }

  lemma MetadataFrame(metadata: Members, added: map<string, string>, q: Pointer)
    requires AsStringMap(Member(Obj(metadata), "annotations")).Success?
    requires added != map[]
    requires forall k :: k in added ==> Apart(["annotations", k], q)
    ensures var annotations := MembersOf(Obj(metadata), "annotations");
            Get(Obj(metadata["annotations" := Obj(annotations + Texts(added))]), q) == Get(Obj(metadata), q)
  {
    var k0 :| k0 in added;
    forall k | k in added
      ensures q != [] && (q[0] == "annotations" ==> q[1..] != [] && q[1] != k)
    {
      assert ["annotations", k] == ["annotations"] + ([k] + []);
      ApartTail("annotations", [k] + [], q);
      if q[0] == "annotations" {
        ApartTail(k, [], q[1..]);
        assert !Apart([], q[1..][1..]);
      }
    }
    if q[0] == "annotations" {
      assert q[1] !in added;
    }
  }

  /**
   Every location of the document that is not on the branch of a written default,
   in particular every explicit value, is the same after the patch.
   */
  lemma PatchFrame(j: Json, pod: Pod, seccomp: Setting, security: Setting, q: Pointer)
    requires DecodePod(j) == Success(pod)
    requires Receptive(j, pod, seccomp, security)
    requires Beside(q, pod, seccomp, security)
    ensures Get(DefaultedDocument(j, pod, seccomp, security), q) == Get(j, q)
  {
    var added := AddedAnnotations(pod, seccomp, security);
    var spec :=
      if security.value == NOBODY then Some(DefaultedSpec(MembersOf(j, "spec"), LacksIdentity(pod))) else None;
    DecodeReads(j, pod);
    if security.value == NOBODY {
      SpecBranch(j, pod, q);
    }
    if added != map[] {
      MetadataBranch(j, pod, added, q);
    }
    RewrittenFrame(j, Merged(j, added), spec, q);
  }

  /** A rewritten document agrees with the original wherever its metadata and its spec do. */
  lemma RewrittenFrame(j: Json, annotations: Option<Members>, spec: Option<Members>, q: Pointer)
    requires j.Obj?
    requires annotations.Some? ==> HasObject(j, "metadata") && q != []
    requires annotations.Some? && q[0] == "metadata" ==>
               Get(Obj(MembersOf(j, "metadata")["annotations" := Obj(annotations.value)]), q[1..])
               == Get(Obj(MembersOf(j, "metadata")), q[1..])
    requires spec.Some? ==> HasObject(j, "spec")
    requires spec.Some? && q != [] && q[0] == "spec" ==>
              Get(Obj(spec.value), q[1..]) == Get(Obj(MembersOf(j, "spec")), q[1..])
    requires spec.Some? && q == [] ==> spec.value == MembersOf(j, "spec")
    ensures Get(Rewritten(j, annotations, spec), q) == Get(j, q)
  {
    if q == [] {
      SpecUnchanged(j, None);
      assert Rewritten(j, None, None) == j;
    }
  }

  lemma SpecBranch(j: Json, pod: Pod, q: Pointer)
    requires DecodePod(j) == Success(pod)
    requires LacksIdentity(pod) ==> BesideIdentity(["spec"], q)
    requires BesideContainers(["spec", "containers"], pod.containers, q)
    ensures var spec := MembersOf(j, "spec");
            var spec' := DefaultedSpec(spec, LacksIdentity(pod));
            && (q != [] && q[0] == "spec" ==> Get(Obj(spec'), q[1..]) == Get(Obj(spec), q[1..]))
            && (q == [] ==> spec' == spec)
  {
    if q == [] || q[0] == "spec" {
      var r := if q == [] then [] else q[1..];
      if LacksIdentity(pod) {
        var user, group := [] + ["securityContext", "runAsUser"], [] + ["securityContext", "runAsGroup"];
        assert ["spec"] + ["securityContext", "runAsUser"] == ["spec"] + user;
        assert ["spec"] + ["securityContext", "runAsGroup"] == ["spec"] + group;
        SpecTail(user, q);
        SpecTail(group, q);
      }
      forall i | 0 <= i < |pod.containers| && Changes(pod.containers[i])
        ensures Apart(["containers"] + [Itoa(i), "securityContext", "allowPrivilegeEscalation"], r)
      {
        var tail := ["containers"] + [Itoa(i), "securityContext", "allowPrivilegeEscalation"];
        assert ["spec", "containers"] + [Itoa(i), "securityContext", "allowPrivilegeEscalation"] == ["spec"] + tail;
        SpecTail(tail, q);
      }
      DecodeReads(j, pod);
      DecodedContainers(j, pod);
      SpecFrame(MembersOf(j, "spec"), LacksIdentity(pod), pod.containers, r);
    }
  }

  lemma SpecTail(tail: Pointer, q: Pointer)
    requires Apart(["spec"] + tail, q)
    ensures q != [] && (q[0] == "spec" ==> Apart(tail, q[1..]))
  {
    ApartTail("spec", tail, q);
  }

  lemma MetadataBranch(j: Json, pod: Pod, added: map<string, string>, q: Pointer)
    requires DecodePod(j) == Success(pod) && added != map[]
    requires forall k :: k in added ==> Apart(["metadata", "annotations", k], q)
    ensures q != []
    ensures q[0] == "metadata" ==>
              Get(Obj(MembersOf(j, "metadata")["annotations" := Obj(AnnotationsOf(j) + Texts(added))]), q[1..])
              == Get(Obj(MembersOf(j, "metadata")), q[1..])
  {
    var k0 :| k0 in added;
    assert Apart(["metadata", "annotations", k0], q);
    if q[0] == "metadata" {
      forall k | k in added
        ensures Apart(["annotations", k], q[1..])
      {
        assert ["metadata", "annotations", k] == ["metadata"] + ["annotations", k];
        ApartTail("metadata", ["annotations", k], q);
      }
      DecodeReads(j, pod);
      MetadataFrame(MembersOf(j, "metadata"), added, q[1..]);
    }
  }
}
