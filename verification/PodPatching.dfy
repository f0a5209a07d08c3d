/**
 What the patch of a pod does to the pod's JSON document: it fills in the
 defaults and changes nothing else, and it applies exactly when the members it
 writes into are there.
 */
module PodPatching {
  import opened Results
  import opened Text
  import opened JsonPatch
  import opened Resources
  import opened Pods
  import opened PodMutation

  type Members = map<string, Json>

  /** The members of an object-valued member; empty when it is absent, null or not an object. */
  function MembersOf(j: Json, name: string): Members {
    match Member(j, name)
    case Some(Obj(m)) => m
    case _ => map[]
  }

  predicate HasObject(j: Json, name: string) {
    j.Obj? && name in j.members && j.members[name].Obj?
  }

  function AnnotationsOf(j: Json): Members {
    MembersOf(Obj(MembersOf(j, "metadata")), "annotations")
  }

  /** The document with its annotations and its spec replaced, where given, and all else kept. */
  function Rewritten(j: Json, annotations: Option<Members>, spec: Option<Members>): Json
    requires j.Obj?
  {
    var annotated :=
      if annotations.None? then j.members
      else j.members["metadata" := Obj(MembersOf(j, "metadata")["annotations" := Obj(annotations.value)])];
    Obj(if spec.None? then annotated else annotated["spec" := Obj(spec.value)])
  }

  function Texts(m: map<string, string>): Members {
    map k | k in m :: Str(m[k])
  }

  function DefaultedContainerJson(c: Json): Json {
    var security := MembersOf(c, "securityContext");
    if !c.Obj? || Member(Obj(security), "allowPrivilegeEscalation").Some? then c
    else Obj(c.members["securityContext" := Obj(security["allowPrivilegeEscalation" := Bool(false)])])
  }

  function IdentifiedSpec(spec: Members): Members {
    spec["securityContext" :=
      Obj(MembersOf(Obj(spec), "securityContext")["runAsUser" := Num(NOBODY_ID)]["runAsGroup" := Num(NOBODY_ID)])]
  }

  function ContainersJson(spec: Members): seq<Json> {
    match Member(Obj(spec), "containers")
    case Some(Arr(a)) => a
    case _ => []
  }

  /** The first n containers defaulted, the others as they are. */
  function DefaultedContainersJson(containers: seq<Json>, n: nat): seq<Json>
    requires n <= |containers|
  {
    seq(|containers|, i requires 0 <= i < |containers| =>
      if i < n then DefaultedContainerJson(containers[i]) else containers[i])
  }

  function WithContainers(spec: Members, containers: seq<Json>): Members {
    if containers == [] then spec else spec["containers" := Arr(containers)]
  }

  function DefaultedSpec(spec: Members, identify: bool): Members {
    WithContainers(
      if identify then IdentifiedSpec(spec) else spec,
      DefaultedContainersJson(ContainersJson(spec), |ContainersJson(spec)|))
  }

  /** The defaulted document: annotations merged in, identity and container defaults set, nothing else touched. */
  function DefaultedDocument(j: Json, pod: Pod, seccomp: Setting, security: Setting): Json
    requires j.Obj?
  {
    var added := AddedAnnotations(pod, seccomp, security);
    Rewritten(j,
      if added == map[] then None else Some(AnnotationsOf(j) + Texts(added)),
      if security.value == NOBODY then Some(DefaultedSpec(MembersOf(j, "spec"), LacksIdentity(pod))) else None)
  }

  /** The document has the members its patch writes into. */
  predicate Receptive(j: Json, pod: Pod, seccomp: Setting, security: Setting) {
    (AddedAnnotations(pod, seccomp, security) != map[] ==> HasObject(j, "metadata"))
    && (security.value == NOBODY ==> HasObject(j, "spec") && AllObjects(ContainersJson(MembersOf(j, "spec"))))
  }

  predicate AllObjects(elems: seq<Json>) {
    forall i :: 0 <= i < |elems| ==> elems[i].Obj?
  }

  // -------------------------------------------------------------- single paths

  lemma AnnotationsPath()
    ensures ParsePointer(ANNOTATIONS) == Some(["metadata", "annotations"])
  {
    assert ANNOTATIONS == PathTo("/" + "metadata", "annotations");
    PathOfTwo(ANNOTATIONS, "metadata", "annotations");
  }

  lemma SecurityContextPath()
    ensures ParsePointer(SECURITY_CONTEXT) == Some(["spec", "securityContext"])
  {
    assert SECURITY_CONTEXT == PathTo("/" + "spec", "securityContext");
    PathOfTwo(SECURITY_CONTEXT, "spec", "securityContext");
  }

  lemma ContainersPath()
    ensures ParsePointer(CONTAINERS) == Some(["spec", "containers"])
  {
    assert CONTAINERS == PathTo("/" + "spec", "containers");
    PathOfTwo(CONTAINERS, "spec", "containers");
  }

  lemma ElementPath(front: string, i: nat)
    requires front != "" && ParsePointer(front) == Some(["spec", "containers"])
    ensures ParsePointer(PathTo(PathTo(front, Itoa(i)), "securityContext"))
         == Some(["spec", "containers", Itoa(i), "securityContext"])
  {
    ItoaDigits(i);
    ExtendPlainPath(front, ["spec", "containers"], Itoa(i));
    var three := ["spec", "containers"] + [Itoa(i)];
    ExtendPlainPath(PathTo(front, Itoa(i)), three, "securityContext");
    assert three + ["securityContext"] == ["spec", "containers", Itoa(i), "securityContext"];
  }

  lemma ContainerPath(i: nat)
    ensures ParsePointer(ContainerSecurityPath(i)) == Some(["spec", "containers", Itoa(i), "securityContext"])
  {
    ContainersPath();
    ElementPath(CONTAINERS, i);
  }

  // ------------------------------------------------------- one operation at a time

  lemma AddUnder(m: Members, token: string, rest: Pointer, v: Json)
    requires rest != []
    ensures AddAt(Obj(m), [token] + rest, v) ==
            if token in m then
              match AddAt(m[token], rest, v)
              case None => None
              case Some(c) => Some(Obj(m[token := c]))
            else None
  {
    var ptr := [token] + rest;
    assert ptr[0] == token && ptr[1..] == rest;
  }

  lemma AddTwo(m: Members, first: string, second: string, v: Json)
    ensures AddAt(Obj(m), [first, second], v) ==
            if first in m then
              match AddMember(m[first], second, v)
              case None => None
              case Some(c) => Some(Obj(m[first := c]))
            else None
  {
    AddUnder(m, first, [second], v);
    assert [first] + [second] == [first, second];
  }

  lemma AddThree(doc: Members, first: string, outer: Members, second: string, inner: Members, third: string, v: Json)
    requires first in doc && doc[first] == Obj(outer)
    requires second in outer && outer[second] == Obj(inner)
    ensures AddAt(Obj(doc), [first, second, third], v)
         == Some(Obj(doc[first := Obj(outer[second := Obj(inner[third := v])])]))
  {
    assert [first, second, third] == [first] + [second, third];
    AddUnder(doc, first, [second, third], v);
    AddTwo(outer, second, third, v);
  }

  /** Decoding reads exactly the keys of the annotations object. */
  lemma DecodedAnnotations(j: Json, pod: Pod)
    requires DecodePod(j) == Success(pod)
    ensures pod.annotations == map k | k in AnnotationsOf(j) :: TextOf(AnnotationsOf(j)[k])
    ensures |pod.annotations| == 0 <==> AnnotationsOf(j) == map[]
    ensures AnnotationsOf(j) != map[] ==>
              HasObject(j, "metadata") && HasObject(j.members["metadata"], "annotations")
  {
    assert pod.annotations.Keys == AnnotationsOf(j).Keys;
    if |pod.annotations| == 0 {
      assert AnnotationsOf(j).Keys == {};
    }
  }

  function CurrentAnnotations(j: Json, annotations: Option<Members>): Members {
    if annotations.Some? then annotations.value else AnnotationsOf(j)
  }

  /** The `annotated` flag says, for a pod without annotations, whether the patch has created the object. */
  predicate FlagAgrees(pod: Pod, annotated: bool, annotations: Option<Members>) {
    |pod.annotations| == 0 ==> (annotated <==> annotations.Some?)
  }

  /** Adding the whole annotations object. */
  lemma CreateAnnotations(doc: Members, v: Json)
    ensures ApplyOperation(Obj(doc), Add(ANNOTATIONS, v)) ==
            if "metadata" in doc then
              match AddMember(doc["metadata"], "annotations", v)
              case None => None
              case Some(metadata) => Some(Obj(doc["metadata" := metadata]))
            else None
  {
    AnnotationsPath();
    AddTwo(doc, "metadata", "annotations", v);
  }

  /** Adding one annotation to an annotations object that is there. */
  lemma SetAnnotation(doc: Members, metadata: Members, annotations: Members, key: string, v: Json)
    requires "metadata" in doc && doc["metadata"] == Obj(metadata)
    requires "annotations" in metadata && metadata["annotations"] == Obj(annotations)
    requires '~' !in key
    ensures ApplyOperation(Obj(doc), Add(PathTo(ANNOTATIONS, EscapeSlash(key)), v))
         == Some(Obj(doc["metadata" := Obj(metadata["annotations" := Obj(annotations[key := v])])]))
  {
    AnnotationsPath();
    ExtendPath(ANNOTATIONS, ["metadata", "annotations"], key);
    assert ["metadata", "annotations"] + [key] == ["metadata", "annotations", key];
    AddThree(doc, "metadata", metadata, "annotations", annotations, key, v);
  }

  lemma AnnotateMeaning(j: Json, pod: Pod, annotations: Option<Members>, spec: Option<Members>,
                        annotated: bool, key: string, value: string)
    requires DecodePod(j) == Success(pod)
    requires annotations.Some? ==> HasObject(j, "metadata")
    requires FlagAgrees(pod, annotated, annotations)
    requires '~' !in key
    ensures ApplyOperation(Rewritten(j, annotations, spec), AnnotateOperation(pod, annotated, key, value)) ==
            if HasObject(j, "metadata")
            then Some(Rewritten(j, Some(CurrentAnnotations(j, annotations)[key := Str(value)]), spec))
            else None
  {
    var doc := Rewritten(j, annotations, spec).members;
    var current := CurrentAnnotations(j, annotations);
    DecodedAnnotations(j, pod);
    if |pod.annotations| == 0 && !annotated {
      CreateAnnotations(doc, Obj(map[key := Str(value)]));
      assert map[key := Str(value)] == current[key := Str(value)];
      RewrittenMetadata(j, annotations, spec);
      MetadataIsNotSpec(j, current[key := Str(value)], annotations, spec);
    } else {
      var metadata := MembersOf(j, "metadata");
      RewrittenMetadata(j, annotations, spec);
      SetAnnotation(doc, doc["metadata"].members, current, key, Str(value));
      var updated := Obj(current[key := Str(value)]);
      assert doc["metadata"].members["annotations" := updated] == metadata["annotations" := updated];
      MetadataIsNotSpec(j, current[key := Str(value)], annotations, spec);
    }
  }

  lemma RewrittenMetadata(j: Json, annotations: Option<Members>, spec: Option<Members>)
    requires j.Obj?
    requires annotations.Some? ==> HasObject(j, "metadata")
    ensures var doc := Rewritten(j, annotations, spec).members;
            && ("metadata" in doc <==> "metadata" in j.members)
            && (annotations.None? && "metadata" in doc ==> doc["metadata"] == j.members["metadata"])
            && (annotations.Some? ==>
                doc["metadata"] == Obj(MembersOf(j, "metadata")["annotations" := Obj(annotations.value)]))
            && (HasObject(j, "metadata") ==> j.members["metadata"] == Obj(MembersOf(j, "metadata")))
  {
  }

  lemma MetadataIsNotSpec(j: Json, merged: Members, annotations: Option<Members>, spec: Option<Members>)
    requires j.Obj?
    ensures Rewritten(j, Some(merged), spec).members
         == Rewritten(j, annotations, spec).members["metadata" :=
              Obj(MembersOf(j, "metadata")["annotations" := Obj(merged)])]
  {
  }

  /** Appending one annotation to a patch whose effect so far is known. */
  lemma AnnotatedMeaning(j: Json, pod: Pod, st: PatchState, annotations: Option<Members>, spec: Option<Members>,
                         key: string, value: string)
    requires DecodePod(j) == Success(pod)
    requires annotations.Some? ==> HasObject(j, "metadata")
    requires ApplyPatch(j, st.operations) == Some(Rewritten(j, annotations, spec))
    requires FlagAgrees(pod, st.annotated, annotations)
    requires '~' !in key
    ensures var merged := Some(CurrentAnnotations(j, annotations)[key := Str(value)]);
            && ApplyPatch(j, Annotated(pod, st, key, value).operations) ==
               (if HasObject(j, "metadata") then Some(Rewritten(j, merged, spec)) else None)
            && FlagAgrees(pod, Annotated(pod, st, key, value).annotated, merged)
  {
    var op := AnnotateOperation(pod, st.annotated, key, value);
    AnnotateMeaning(j, pod, annotations, spec, st.annotated, key, value);
    PatchConcat(j, st.operations, [op]);
    PatchOne(Rewritten(j, annotations, spec), op);
  }

  lemma NoTildeInSeccomp()
    ensures '~' !in SECCOMP
  {
  }

  lemma NoTildeInSeccompInternal()
    ensures '~' !in SECCOMP_INTERNAL
  {
  }

  lemma NoTildeInSecurityInternal()
    ensures '~' !in SECURITY_INTERNAL
  {
  }

  lemma KeysDiffer()
    ensures SECCOMP != SECCOMP_INTERNAL && SECCOMP != SECURITY_INTERNAL && SECCOMP_INTERNAL != SECURITY_INTERNAL
  {
    assert |KARYDIA| == 23;
    assert SECCOMP[0] == 's' && SECCOMP_INTERNAL[0] == 'k' && SECURITY_INTERNAL[0] == 'k';
    assert SECCOMP_INTERNAL[23] == 's' && SECURITY_INTERNAL[23] == 'p';
  }

  /** The annotations the document has after a stage that adds some. */
  function Merged(j: Json, added: map<string, string>): Option<Members> {
    if added == map[] then None else Some(AnnotationsOf(j) + Texts(added))
  }

  lemma NothingPatched(j: Json)
    requires j.Obj?
    ensures ApplyPatch(j, NO_PATCHES.operations) == Some(Rewritten(j, None, None))
  {
  }

  /**
   Wherever an annotation operation applies, the annotation is found under its key afterwards,
   and all that is beside the annotations, and beside the key when the object was there, is as
   before.
   */
  lemma AnnotationLands(j: Json, j': Json, pod: Pod, annotated: bool, key: string, value: string, other: Pointer)
    requires '~' !in key && key != "-" && ParseIndex(key).None?
    requires ApplyOperation(j, AnnotateOperation(pod, annotated, key, value)) == Some(j')
    ensures Get(j', ["metadata", "annotations", key]) == Some(Str(value))
    ensures Apart(["metadata", "annotations"], other) ==> Get(j', other) == Get(j, other)
    ensures !(|pod.annotations| == 0 && !annotated) && Apart(["metadata", "annotations", key], other) ==>
              Get(j', other) == Get(j, other)
  {
    if |pod.annotations| == 0 && !annotated {
      AnnotationsPath();
      AnnotationsLand(j, j', AnnotateOperation(pod, annotated, key, value), key, other);
    } else {
      OneAnnotationLands(j, j', key, value, other);
    }
  }

  lemma AnnotationsLand(j: Json, j': Json, op: Operation, key: string, other: Pointer)
    requires ParsePointer(op.path) == Some(["metadata", "annotations"])
    requires ApplyOperation(j, op) == Some(j') && op.value.Obj? && key in op.value.members
    ensures Get(j', ["metadata", "annotations", key]) == Some(op.value.members[key])
    ensures Apart(["metadata", "annotations"], other) ==> Get(j', other) == Get(j, other)
  {
    IsNoIndex();
    ObjectLands(j, j', op, ["metadata", "annotations"], key, other);
    assert ["metadata", "annotations"] + [key] == ["metadata", "annotations", key];
  }

  lemma OneAnnotationLands(j: Json, j': Json, key: string, value: string, other: Pointer)
    requires '~' !in key && key != "-" && ParseIndex(key).None?
    requires ApplyOperation(j, Add(PathTo(ANNOTATIONS, EscapeSlash(key)), Str(value))) == Some(j')
    ensures Get(j', ["metadata", "annotations", key]) == Some(Str(value))
    ensures Apart(["metadata", "annotations"], other) || Apart(["metadata", "annotations", key], other) ==>
              Get(j', other) == Get(j, other)
  {
    var ptr := ["metadata", "annotations", key];
    AnnotationPath(key);
    OperationLands(j, j', Add(PathTo(ANNOTATIONS, EscapeSlash(key)), Str(value)), ptr, other);
    ApartAnnotations(key, other);
  }

  lemma AnnotationPath(key: string)
    requires '~' !in key
    ensures ParsePointer(PathTo(ANNOTATIONS, EscapeSlash(key))) == Some(["metadata", "annotations", key])
  {
    AnnotationsPath();
    ExtendPath(ANNOTATIONS, ["metadata", "annotations"], key);
    assert ["metadata", "annotations"] + [key] == ["metadata", "annotations", key];
  }

  lemma ApartAnnotations(key: string, other: Pointer)
    ensures Apart(["metadata", "annotations"], other) ==> Apart(["metadata", "annotations", key], other)
  {
    if Apart(["metadata", "annotations"], other) {
      ApartLonger(["metadata", "annotations"], [key], other);
      assert ["metadata", "annotations"] + [key] == ["metadata", "annotations", key];
    }
  }

  lemma IsNoIndex()
    ensures ParseIndex("annotations").None?
  {
  }

  lemma {:induction false} ApartLonger(front: Pointer, rest: Pointer, other: Pointer)
    requires Apart(front, other)
    ensures Apart(front + rest, other)
    decreases |front|
  {
    assert (front + rest)[0] == front[0] && (front + rest)[1..] == front[1..] + rest;
    if front[0] == other[0] {
      ApartLonger(front[1..], rest, other[1..]);
    }
  }

  /** Two annotations in a row on a fresh patch: the first may create the object, the second then finds it. */
  lemma TwoAnnotations(j: Json, pod: Pod, key1: string, value1: string, key2: string, value2: string)
    requires DecodePod(j) == Success(pod)
    requires '~' !in key1 && '~' !in key2 && key1 != key2
    ensures var st := Annotated(pod, Annotated(pod, NO_PATCHES, key1, value1), key2, value2);
            var merged := Merged(j, map[key1 := value1, key2 := value2]);
            && ApplyPatch(j, st.operations) ==
               (if HasObject(j, "metadata") then Some(Rewritten(j, merged, None)) else None)
            && FlagAgrees(pod, st.annotated, merged)
  {
    var added := map[key1 := value1, key2 := value2];
    assert key1 in added;
    var st := Annotated(pod, NO_PATCHES, key1, value1);
    NothingPatched(j);
    AnnotatedMeaning(j, pod, NO_PATCHES, None, None, key1, value1);
    var once := AnnotationsOf(j)[key1 := Str(value1)];
    if HasObject(j, "metadata") {
      AnnotatedMeaning(j, pod, st, Some(once), None, key2, value2);
      TextsOfTwo(AnnotationsOf(j), key1, value1, key2, value2);
    } else {
      PatchConcat(j, st.operations, [AnnotateOperation(pod, st.annotated, key2, value2)]);
    }
  }

  lemma TextsOfTwo(base: Members, key1: string, value1: string, key2: string, value2: string)
    requires key1 != key2
    ensures base[key1 := Str(value1)][key2 := Str(value2)] == base + Texts(map[key1 := value1, key2 := value2])
  {
  }

  function SeccompPatch(pod: Pod, setting: Setting): PatchState {
    if setting.value != "" then SeccompStage(pod, setting, NO_PATCHES) else NO_PATCHES
  }

  lemma SeccompMeaning(j: Json, pod: Pod, setting: Setting)
    requires DecodePod(j) == Success(pod)
    ensures var added := SeccompAnnotations(pod, setting);
            && ApplyPatch(j, SeccompPatch(pod, setting).operations) ==
               (if added != map[] && !HasObject(j, "metadata") then None
                else Some(Rewritten(j, Merged(j, added), None)))
            && FlagAgrees(pod, SeccompPatch(pod, setting).annotated, Merged(j, added))
  {
    if setting.value != "" && LacksSeccomp(pod) {
      NoTildeInSeccomp();
      NoTildeInSeccompInternal();
      KeysDiffer();
      TwoAnnotations(j, pod, SECCOMP, setting.value, SECCOMP_INTERNAL, setting.src + "/" + setting.value);
      assert SECCOMP in SeccompAnnotations(pod, setting);
    } else {
      NothingPatched(j);
    }
  }

  // -------------------------------------------------------------- identity stage

  /** Adding at spec.securityContext, as a whole or below it, seen from the spec. */
  lemma AddSecurityContext(doc: Members, v: Json)
    ensures ApplyOperation(Obj(doc), Add(SECURITY_CONTEXT, v)) ==
            if "spec" in doc then
              match AddMember(doc["spec"], "securityContext", v)
              case None => None
              case Some(spec) => Some(Obj(doc["spec" := spec]))
            else None
  {
    SecurityContextPath();
    AddTwo(doc, "spec", "securityContext", v);
  }

  lemma AddIdentity(doc: Members, spec: Members, security: Members, name: string, v: Json)
    requires "spec" in doc && doc["spec"] == Obj(spec)
    requires "securityContext" in spec && spec["securityContext"] == Obj(security)
    requires Plain(name)
    ensures ApplyOperation(Obj(doc), Add(PathTo(SECURITY_CONTEXT, name), v))
         == Some(Obj(doc["spec" := Obj(spec["securityContext" := Obj(security[name := v])])]))
  {
    IdentityPath(name);
    AddThree(doc, "spec", spec, "securityContext", security, name, v);
  }

  lemma IdentityPath(name: string)
    requires Plain(name)
    ensures ParsePointer(PathTo(SECURITY_CONTEXT, name)) == Some(["spec", "securityContext", name])
  {
    SecurityContextPath();
    ExtendPlainPath(SECURITY_CONTEXT, ["spec", "securityContext"], name);
    assert ["spec", "securityContext"] + [name] == ["spec", "securityContext", name];
  }

  /** With a security context in the document, its two members are set one after the other. */
  lemma AddBothIdentities(doc: Members, spec: Members, security: Members)
    requires "spec" in doc && doc["spec"] == Obj(spec)
    requires "securityContext" in spec && spec["securityContext"] == Obj(security)
    ensures ApplyPatch(Obj(doc), [Add(PathTo(SECURITY_CONTEXT, "runAsUser"), Num(NOBODY_ID)),
                                  Add(PathTo(SECURITY_CONTEXT, "runAsGroup"), Num(NOBODY_ID))])
         == Some(Obj(doc["spec" := Obj(IdentifiedSpec(spec))]))
  {
    var user := Add(PathTo(SECURITY_CONTEXT, "runAsUser"), Num(NOBODY_ID));
    var group := Add(PathTo(SECURITY_CONTEXT, "runAsGroup"), Num(NOBODY_ID));
    var security1 := security["runAsUser" := Num(NOBODY_ID)];
    var spec1 := spec["securityContext" := Obj(security1)];
    var doc1 := doc["spec" := Obj(spec1)];
    AddIdentity(doc, spec, security, "runAsUser", Num(NOBODY_ID));
    AddIdentity(doc1, spec1, security1, "runAsGroup", Num(NOBODY_ID));
    assert [user] + [group] == [user, group];
    PatchConcat(Obj(doc), [user], [group]);
    PatchOne(Obj(doc), user);
    PatchOne(Obj(doc1), group);
    var spec2 := spec1["securityContext" := Obj(security1["runAsGroup" := Num(NOBODY_ID)])];
    assert spec2 == IdentifiedSpec(spec);
    assert doc1["spec" := Obj(spec2)] == doc["spec" := Obj(spec2)];
  }

  lemma IdentityMeaning(j: Json, pod: Pod, annotations: Option<Members>)
    requires DecodePod(j) == Success(pod) && LacksIdentity(pod)
    ensures ApplyPatch(Rewritten(j, annotations, None), IdentityOperations(pod)) ==
            if HasObject(j, "spec")
            then Some(Rewritten(j, annotations, Some(IdentifiedSpec(MembersOf(j, "spec")))))
            else None
  {
    var doc := Rewritten(j, annotations, None).members;
    var spec := MembersOf(j, "spec");
    assert ("spec" in doc <==> "spec" in j.members) && ("spec" in doc ==> doc["spec"] == j.members["spec"]);
    if pod.securityContext.None? {
      CreateIdentity(doc, spec);
    } else {
      AddBothIdentities(doc, spec, MembersOf(Obj(spec), "securityContext"));
    }
  }

  /** Without a security context in the document, one is added with both members. */
  lemma CreateIdentity(doc: Members, spec: Members)
    requires "spec" in doc && doc["spec"].Obj? ==> doc["spec"] == Obj(spec)
    requires Member(Obj(spec), "securityContext").None?
    requires "spec" in doc ==> !doc["spec"].Arr?
    ensures ApplyPatch(Obj(doc), [Add(SECURITY_CONTEXT, IDENTITY)]) ==
            if "spec" in doc && doc["spec"].Obj? then Some(Obj(doc["spec" := Obj(IdentifiedSpec(spec))])) else None
  {
    AddSecurityContext(doc, IDENTITY);
    PatchOne(Obj(doc), Add(SECURITY_CONTEXT, IDENTITY));
    var none: Members := map[];
    assert IDENTITY == Obj(none["runAsUser" := Num(NOBODY_ID)]["runAsGroup" := Num(NOBODY_ID)]);
  }

  // ------------------------------------------------------------- container stage

  lemma AddInContainer(doc: Members, spec: Members, elems: seq<Json>, i: nat, rest: Pointer, v: Json)
    requires "spec" in doc && doc["spec"] == Obj(spec)
    requires "containers" in spec && spec["containers"] == Arr(elems)
    requires i < |elems| && rest != []
    ensures AddAt(Obj(doc), ["spec", "containers", Itoa(i)] + rest, v) ==
            match AddAt(elems[i], rest, v)
            case None => None
            case Some(c) => Some(Obj(doc["spec" := Obj(spec["containers" := Arr(elems[i := c])])]))
  {
    IndexRoundTrip(i, Itoa(i));
    var tail := [Itoa(i)] + rest;
    assert tail[0] == Itoa(i) && tail[1..] == rest;
    assert ["spec", "containers", Itoa(i)] + rest == ["spec"] + (["containers"] + tail);
    AddUnder(doc, "spec", ["containers"] + tail, v);
    AddUnder(spec, "containers", tail, v);
  }

  /** One added value in an element of the list of containers. */
  lemma PatchInContainer(doc: Members, spec: Members, elems: seq<Json>, i: nat, path: string, rest: Pointer, v: Json)
    requires "spec" in doc && doc["spec"] == Obj(spec)
    requires "containers" in spec && spec["containers"] == Arr(elems)
    requires i < |elems| && rest != []
    requires ParsePointer(path) == Some(["spec", "containers", Itoa(i)] + rest)
    ensures ApplyPatch(Obj(doc), [Add(path, v)]) ==
            match AddAt(elems[i], rest, v)
            case None => None
            case Some(c) => Some(Obj(doc["spec" := Obj(spec["containers" := Arr(elems[i := c])])]))
  {
    PatchOne(Obj(doc), Add(path, v));
    AddInContainer(doc, spec, elems, i, rest, v);
  }

  /** A container without a security context gets one. */
  lemma ContainerCreated(doc: Members, spec: Members, elems: seq<Json>, i: nat)
    requires "spec" in doc && doc["spec"] == Obj(spec)
    requires "containers" in spec && spec["containers"] == Arr(elems)
    requires i < |elems| && DecodeContainer(elems[i]) == Success(None)
    ensures ApplyPatch(Obj(doc), ContainerOperations(None, i)) ==
            if elems[i].Obj? then
              Some(Obj(doc["spec" := Obj(spec["containers" := Arr(elems[i := DefaultedContainerJson(elems[i])])])]))
            else None
  {
    ContainerPath(i);
    assert ["spec", "containers", Itoa(i)] + ["securityContext"] == ["spec", "containers", Itoa(i), "securityContext"];
    var v := Obj(map["allowPrivilegeEscalation" := Bool(false)]);
    PatchInContainer(doc, spec, elems, i, ContainerSecurityPath(i), ["securityContext"], v);
    var none: Members := map[];
    assert v == Obj(none["allowPrivilegeEscalation" := Bool(false)]);
  }

  /** A security context without the flag gets the flag. */
  lemma ContainerExtended(doc: Members, spec: Members, elems: seq<Json>, i: nat, c: ContainerSecurity)
    requires "spec" in doc && doc["spec"] == Obj(spec)
    requires "containers" in spec && spec["containers"] == Arr(elems)
    requires i < |elems| && DecodeContainer(elems[i]) == Success(Some(c)) && c.allowPrivilegeEscalation.None?
    ensures elems[i].Obj?
    ensures ApplyPatch(Obj(doc), ContainerOperations(Some(c), i)) ==
            Some(Obj(doc["spec" := Obj(spec["containers" := Arr(elems[i := DefaultedContainerJson(elems[i])])])]))
  {
    var front := ["spec", "containers", Itoa(i)];
    var security := ["spec", "containers", Itoa(i), "securityContext"];
    var member := ["securityContext", "allowPrivilegeEscalation"];
    ContainerPath(i);
    ExtendPlainPath(ContainerSecurityPath(i), security, "allowPrivilegeEscalation");
    assert security + ["allowPrivilegeEscalation"] == front + member;
    PatchInContainer(doc, spec, elems, i, PathTo(ContainerSecurityPath(i), "allowPrivilegeEscalation"), member,
                     Bool(false));
    AddTwo(elems[i].members, "securityContext", "allowPrivilegeEscalation", Bool(false));
  }

  /** What the operations for one container do to its element. */
  lemma ContainerMeaning(doc: Members, spec: Members, elems: seq<Json>, i: nat, c: Option<ContainerSecurity>)
    requires "spec" in doc && doc["spec"] == Obj(spec)
    requires "containers" in spec && spec["containers"] == Arr(elems)
    requires i < |elems| && DecodeContainer(elems[i]) == Success(c)
    ensures ApplyPatch(Obj(doc), ContainerOperations(c, i)) ==
            if elems[i].Obj? then
              Some(Obj(doc["spec" := Obj(spec["containers" := Arr(elems[i := DefaultedContainerJson(elems[i])])])]))
            else None
  {
    if c.None? {
      ContainerCreated(doc, spec, elems, i);
    } else if c.value.allowPrivilegeEscalation.None? {
      ContainerExtended(doc, spec, elems, i, c.value);
    } else {
      assert elems[i := elems[i]] == elems;
      assert spec["containers" := Arr(elems)] == spec && doc["spec" := Obj(spec)] == doc;
    }
  }

  /** The loop over containers: after n of them, the first n elements are defaulted and the rest untouched. */
  lemma {:induction false} ContainersMeaning(doc: Members, spec: Members, containers: seq<Option<ContainerSecurity>>,
                                             n: nat)
    requires "spec" in doc && doc["spec"] == Obj(spec)
    requires |containers| == |ContainersJson(spec)| && n <= |containers|
    requires forall i :: 0 <= i < |containers| ==> DecodeContainer(ContainersJson(spec)[i]) == Success(containers[i])
    ensures ApplyPatch(Obj(doc), ContainersOperations(containers, n)) ==
            if AllObjects(ContainersJson(spec)[..n]) then
              Some(Obj(doc["spec" := Obj(WithContainers(spec, DefaultedContainersJson(ContainersJson(spec), n)))]))
            else None
  {
    var elems := ContainersJson(spec);
    if n == 0 {
      assert DefaultedContainersJson(elems, 0) == elems;
      assert WithContainers(spec, elems) == spec;
      assert doc["spec" := Obj(spec)] == doc;
    } else {
      ContainersMeaning(doc, spec, containers, n - 1);
      PatchConcat(Obj(doc), ContainersOperations(containers, n - 1), ContainerOperations(containers[n - 1], n - 1));
      assert elems[..n] == elems[..n - 1] + [elems[n - 1]];
      if AllObjects(elems[..n - 1]) {
        NextContainer(doc, spec, containers[n - 1], n);
      }
      AllObjectsSnoc(elems, n);
    }
  }

  lemma AllObjectsSnoc(elems: seq<Json>, n: nat)
    requires 0 < n <= |elems|
    ensures AllObjects(elems[..n]) <==> AllObjects(elems[..n - 1]) && elems[n - 1].Obj?
  {
    assert elems[..n] == elems[..n - 1] + [elems[n - 1]];
    assert elems[..n][n - 1] == elems[n - 1];
    assert forall i :: 0 <= i < n - 1 ==> elems[..n - 1][i] == elems[..n][i];
  }

  lemma NextContainer(doc: Members, spec: Members, c: Option<ContainerSecurity>, n: nat)
    requires 0 < n <= |ContainersJson(spec)|
    requires DecodeContainer(ContainersJson(spec)[n - 1]) == Success(c)
    ensures var elems := ContainersJson(spec);
            ApplyPatch(Obj(doc["spec" := Obj(WithContainers(spec, DefaultedContainersJson(elems, n - 1)))]),
                       ContainerOperations(c, n - 1)) ==
            if elems[n - 1].Obj? then
              Some(Obj(doc["spec" := Obj(WithContainers(spec, DefaultedContainersJson(elems, n)))]))
            else None
  {
    var elems := ContainersJson(spec);
    var elems1, elems2 := DefaultedContainersJson(elems, n - 1), DefaultedContainersJson(elems, n);
    var spec1, spec2 := WithContainers(spec, elems1), WithContainers(spec, elems2);
    var doc1 := doc["spec" := Obj(spec1)];
    assert elems1[n - 1] == elems[n - 1];
    ContainerMeaning(doc1, spec1, elems1, n - 1, c);
    assert elems2 == elems1[n - 1 := DefaultedContainerJson(elems[n - 1])];
    assert spec1["containers" := Arr(elems2)] == spec2;
    assert doc1["spec" := Obj(spec2)] == doc["spec" := Obj(spec2)];
  }

  // --------------------------------------------------------------- the whole patch

  function IdentitySpec(j: Json, pod: Pod): Members {
    if LacksIdentity(pod) then IdentifiedSpec(MembersOf(j, "spec")) else MembersOf(j, "spec")
  }

  /** The annotations `added` are those of the patch so far plus, for a pod without identity, the security one. */
  predicate AddsSecurity(j: Json, pod: Pod, first: map<string, string>, added: map<string, string>, security: Setting) {
    if LacksIdentity(pod) then
      && added != map[]
      && Merged(j, added) == Some(CurrentAnnotations(j, Merged(j, first))[
           SECURITY_INTERNAL := Str(security.src + "/" + security.value)])
    else added == first
  }

  lemma IdentityStageMeaning(j: Json, pod: Pod, st: PatchState, first: map<string, string>, added: map<string, string>,
                             security: Setting)
    requires DecodePod(j) == Success(pod)
    requires ApplyPatch(j, st.operations) ==
             if first != map[] && !HasObject(j, "metadata") then None else Some(Rewritten(j, Merged(j, first), None))
    requires FlagAgrees(pod, st.annotated, Merged(j, first))
    requires AddsSecurity(j, pod, first, added, security)
    ensures ApplyPatch(j, IdentityStage(pod, security, st).operations) ==
            if (added != map[] ==> HasObject(j, "metadata")) && HasObject(j, "spec")
            then Some(Rewritten(j, Merged(j, added), Some(IdentitySpec(j, pod))))
            else None
  {
    if LacksIdentity(pod) {
      IdentityLacking(j, pod, st, first, security);
    } else {
      IdentityPresent(j, pod);
      assert IdentityStage(pod, security, st) == st;
      SpecUnchanged(j, Merged(j, first));
    }
  }

  lemma IdentityPresent(j: Json, pod: Pod)
    requires DecodePod(j) == Success(pod) && !LacksIdentity(pod)
    ensures HasObject(j, "spec") && IdentitySpec(j, pod) == MembersOf(j, "spec")
  {
  }

  lemma IdentityLacking(j: Json, pod: Pod, st: PatchState, first: map<string, string>, security: Setting)
    requires DecodePod(j) == Success(pod) && LacksIdentity(pod)
    requires ApplyPatch(j, st.operations) ==
             if first != map[] && !HasObject(j, "metadata") then None else Some(Rewritten(j, Merged(j, first), None))
    requires FlagAgrees(pod, st.annotated, Merged(j, first))
    ensures var merged := Some(CurrentAnnotations(j, Merged(j, first))[
              SECURITY_INTERNAL := Str(security.src + "/" + security.value)]);
            ApplyPatch(j, IdentityStage(pod, security, st).operations) ==
            if HasObject(j, "metadata") && HasObject(j, "spec")
            then Some(Rewritten(j, merged, Some(IdentifiedSpec(MembersOf(j, "spec")))))
            else None
  {
    if ApplyPatch(j, st.operations).Some? {
      IdentityAdded(j, pod, st, Merged(j, first), security);
    } else {
      var st1 := Extended(st, IdentityOperations(pod));
      PatchConcat(j, st.operations, IdentityOperations(pod));
      PatchConcat(j, st1.operations,
        [AnnotateOperation(pod, st1.annotated, SECURITY_INTERNAL, security.src + "/" + security.value)]);
    }
  }

  lemma IdentityAdded(j: Json, pod: Pod, st: PatchState, annotations: Option<Members>, security: Setting)
    requires DecodePod(j) == Success(pod) && LacksIdentity(pod)
    requires annotations.Some? ==> HasObject(j, "metadata")
    requires ApplyPatch(j, st.operations) == Some(Rewritten(j, annotations, None))
    requires FlagAgrees(pod, st.annotated, annotations)
    ensures var value := Str(security.src + "/" + security.value);
            ApplyPatch(j, IdentityStage(pod, security, st).operations) ==
            if HasObject(j, "metadata") && HasObject(j, "spec")
            then Some(Rewritten(j, Some(CurrentAnnotations(j, annotations)[SECURITY_INTERNAL := value]),
                                Some(IdentifiedSpec(MembersOf(j, "spec")))))
            else None
  {
    var value := security.src + "/" + security.value;
    var st1 := Extended(st, IdentityOperations(pod));
    PatchConcat(j, st.operations, IdentityOperations(pod));
    IdentityMeaning(j, pod, annotations);
    if HasObject(j, "spec") {
      NoTildeInSecurityInternal();
      AnnotatedMeaning(j, pod, st1, annotations, Some(IdentifiedSpec(MembersOf(j, "spec"))), SECURITY_INTERNAL, value);
    } else {
      PatchConcat(j, st1.operations, [AnnotateOperation(pod, st1.annotated, SECURITY_INTERNAL, value)]);
    }
  }

  lemma SpecUnchanged(j: Json, annotations: Option<Members>)
    requires j.Obj?
    ensures HasObject(j, "spec") ==>
              Rewritten(j, annotations, Some(MembersOf(j, "spec"))) == Rewritten(j, annotations, None)
  {
    if HasObject(j, "spec") {
      var doc := Rewritten(j, annotations, None).members;
      assert doc["spec" := Obj(MembersOf(j, "spec"))] == doc;
    }
  }

  /** The security stage adds one annotation to those of the seccomp stage. */
  lemma SecurityAdds(j: Json, pod: Pod, seccomp: Setting, security: Setting)
    requires security.value == NOBODY
    ensures AddsSecurity(j, pod, SeccompAnnotations(pod, seccomp), AddedAnnotations(pod, seccomp, security), security)
  {
    var first := SeccompAnnotations(pod, seccomp);
    if LacksIdentity(pod) {
      MergeOne(j, first, SECURITY_INTERNAL, security.src + "/" + security.value);
    } else {
      assert first + map[] == first;
    }
  }

  lemma MergeOne(j: Json, first: map<string, string>, key: string, value: string)
    ensures first + map[key := value] != map[]
    ensures Merged(j, first + map[key := value])
         == Some(CurrentAnnotations(j, Merged(j, first))[key := Str(value)])
  {
    var added := first + map[key := value];
    assert key in added;
    assert AnnotationsOf(j) + Texts(added) == (AnnotationsOf(j) + Texts(first))[key := Str(value)];
    assert first == map[] ==> AnnotationsOf(j) + Texts(first) == AnnotationsOf(j);
  }

  /**
   The patch of a pod applies exactly when the document has the members it
   writes into, and then it gives exactly the defaulted document.
   */
  lemma PodPatchMeaning(j: Json, pod: Pod, seccomp: Setting, security: Setting)
    requires DecodePod(j) == Success(pod)
    ensures ApplyPatch(j, PodPatch(pod, seccomp, security)) ==
            if Receptive(j, pod, seccomp, security)
            then Some(DefaultedDocument(j, pod, seccomp, security))
            else None
  {
    if security.value == NOBODY {
      NobodyMeaning(j, pod, seccomp, security);
    } else {
      SeccompMeaning(j, pod, seccomp);
      SeccompOnly(pod, seccomp, security);
    }
  }

  /** With any other security setting than nobody, only the seccomp stage acts. */
  lemma SeccompOnly(pod: Pod, seccomp: Setting, security: Setting)
    requires security.value != NOBODY
    ensures PodPatch(pod, seccomp, security) == SeccompPatch(pod, seccomp).operations
    ensures AddedAnnotations(pod, seccomp, security) == SeccompAnnotations(pod, seccomp)
  {
    var none: map<string, string> := map[];
    assert SecurityAnnotations(pod, security) == none;
    assert SeccompAnnotations(pod, seccomp) + none == SeccompAnnotations(pod, seccomp);
  }

  /** A pod whose document has no metadata decodes, but a patch that annotates it does not apply. */
  lemma PatchMayNotApply(seccomp: Setting, security: Setting)
    requires seccomp.value != ""
    ensures DecodePod(Obj(map[])).Success?
    ensures ApplyPatch(Obj(map[]), PodPatch(DecodePod(Obj(map[])).value, seccomp, security)) == None
  {
    var pod := DecodePod(Obj(map[])).value;
    PodPatchMeaning(Obj(map[]), pod, seccomp, security);
    assert SECCOMP in SeccompAnnotations(pod, seccomp);
    assert SECCOMP in AddedAnnotations(pod, seccomp, security);
  }

  lemma NobodyMeaning(j: Json, pod: Pod, seccomp: Setting, security: Setting)
    requires DecodePod(j) == Success(pod) && security.value == NOBODY
    ensures ApplyPatch(j, PodPatch(pod, seccomp, security)) ==
            if Receptive(j, pod, seccomp, security)
            then Some(DefaultedDocument(j, pod, seccomp, security))
            else None
  {
    SeccompMeaning(j, pod, seccomp);
    SecurityAdds(j, pod, seccomp, security);
    var added := AddedAnnotations(pod, seccomp, security);
    var st := IdentityStage(pod, security, SeccompPatch(pod, seccomp));
    SecurityMeaning(j, pod, SeccompPatch(pod, seccomp), SeccompAnnotations(pod, seccomp), added, security);
    assert PodPatch(pod, seccomp, security)
        == st.operations + ContainersOperations(pod.containers, |pod.containers|);
  }

  lemma SecurityMeaning(j: Json, pod: Pod, st: PatchState, first: map<string, string>, added: map<string, string>,
                        security: Setting)
    requires DecodePod(j) == Success(pod)
    requires ApplyPatch(j, st.operations) ==
             if first != map[] && !HasObject(j, "metadata") then None else Some(Rewritten(j, Merged(j, first), None))
    requires FlagAgrees(pod, st.annotated, Merged(j, first))
    requires AddsSecurity(j, pod, first, added, security)
    ensures var spec := MembersOf(j, "spec");
            ApplyPatch(j, IdentityStage(pod, security, st).operations
                          + ContainersOperations(pod.containers, |pod.containers|)) ==
            if (added != map[] ==> HasObject(j, "metadata")) && HasObject(j, "spec") && AllObjects(ContainersJson(spec))
            then Some(Rewritten(j, Merged(j, added), Some(DefaultedSpec(spec, LacksIdentity(pod)))))
            else None
  {
    var ops := IdentityStage(pod, security, st).operations;
    IdentityStageMeaning(j, pod, st, first, added, security);
    PatchConcat(j, ops, ContainersOperations(pod.containers, |pod.containers|));
    if ApplyPatch(j, ops).Some? {
      ContainersStageMeaning(j, pod, Merged(j, added));
    }
  }

  lemma ContainersStageMeaning(j: Json, pod: Pod, annotations: Option<Members>)
    requires DecodePod(j) == Success(pod) && HasObject(j, "spec")
    ensures ApplyPatch(Rewritten(j, annotations, Some(IdentitySpec(j, pod))),
                       ContainersOperations(pod.containers, |pod.containers|)) ==
            if AllObjects(ContainersJson(MembersOf(j, "spec"))) then
              Some(Rewritten(j, annotations, Some(DefaultedSpec(MembersOf(j, "spec"), LacksIdentity(pod)))))
            else None
  {
    var base := Rewritten(j, annotations, None).members;
    var spec := MembersOf(j, "spec");
    assert ContainersJson(IdentitySpec(j, pod)) == ContainersJson(spec);
    DecodedContainers(j, pod);
    ContainersOfSpec(base, IdentitySpec(j, pod), pod.containers);
  }

  /** All containers of a spec that is put into a document. */
  lemma ContainersOfSpec(base: Members, spec: Members, containers: seq<Option<ContainerSecurity>>)
    requires |containers| == |ContainersJson(spec)|
    requires forall i :: 0 <= i < |containers| ==> DecodeContainer(ContainersJson(spec)[i]) == Success(containers[i])
    ensures var elems := ContainersJson(spec);
            ApplyPatch(Obj(base["spec" := Obj(spec)]), ContainersOperations(containers, |containers|)) ==
            if AllObjects(elems) then
              Some(Obj(base["spec" := Obj(WithContainers(spec, DefaultedContainersJson(elems, |elems|)))]))
            else None
  {
    var doc, elems := base["spec" := Obj(spec)], ContainersJson(spec);
    var final := Obj(WithContainers(spec, DefaultedContainersJson(elems, |elems|)));
    assert doc["spec" := final] == base["spec" := final];
    assert elems[..|containers|] == elems;
    ContainersMeaning(doc, spec, containers, |containers|);
  }

  lemma DecodedContainers(j: Json, pod: Pod)
    requires DecodePod(j) == Success(pod)
    ensures var elems := ContainersJson(MembersOf(j, "spec"));
            && |pod.containers| == |elems|
            && forall i :: 0 <= i < |elems| ==> DecodeContainer(elems[i]) == Success(pod.containers[i])
  {
  }
}
