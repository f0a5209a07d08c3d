/**
 Documents of pods and service accounts: every value of the typed view has one, and decoding
 it gives the value back, so that each field is read from the member it belongs to.
 */
module PodDocuments {
  import opened Results
  import opened JsonPatch
  import opened Pods
  import opened PodPatching
  import opened PodDefaulting

  /** The members of an optional value. */
  function Given<T>(o: Option<T>, name: string, encode: T -> Json): Members {
    if o.None? then map[] else map[name := encode(o.value)]
  }

  function EncodePodSecurity(sc: PodSecurity): Json {
    Obj(Given(sc.runAsUser, "runAsUser", (n: int) => Num(n)) + Given(sc.runAsGroup, "runAsGroup", (n: int) => Num(n)))
  }

  function EncodeContainer(c: Option<ContainerSecurity>): Json {
    Obj(Given(c, "securityContext", (sc: ContainerSecurity) =>
      Obj(Given(sc.allowPrivilegeEscalation, "allowPrivilegeEscalation", (b: bool) => Bool(b)))))
  }

  function EncodeTerminated(t: Terminated): Json {
    Obj(map["exitCode" := Num(t.exitCode), "signal" := Num(t.signal), "reason" := Str(t.reason)])
  }

  function EncodeWaiting(reason: string): Json {
    Obj(map["reason" := Str(reason)])
  }

  function EncodeState(c: ContainerStatus): Members {
    Given(c.waiting, "waiting", EncodeWaiting)
    + (if c.running then map["running" := Obj(map[])] else map[])
    + Given(c.terminated, "terminated", EncodeTerminated)
  }

  function EncodeContainerStatus(c: ContainerStatus): Json {
    Obj(map["ready" := Bool(c.ready), "state" := Obj(EncodeState(c))])
  }

  function EncodeAll<T>(values: seq<T>, encode: T -> Json): seq<Json> {
    seq(|values|, i requires 0 <= i < |values| => encode(values[i]))
  }

  function EncodeMetadata(pod: Pod): Members {
    map["annotations" := Obj(Texts(pod.annotations))]
    + (if pod.status.deleted then map["deletionTimestamp" := Str("")] else map[])
  }

  function EncodeSpec(pod: Pod): Members {
    map["containers" := Arr(EncodeAll(pod.containers, EncodeContainer)),
        "initContainers" := Arr(seq(pod.status.initContainers, _ => Obj(map[])))]
    + Given(pod.securityContext, "securityContext", EncodePodSecurity)
  }

  function EncodeStatus(status: Status): Members {
    map["phase" := Str(status.phase),
        "initContainerStatuses" := Arr(EncodeAll(status.initStatuses, EncodeContainerStatus)),
        "containerStatuses" := Arr(EncodeAll(status.statuses, EncodeContainerStatus))]
  }

  function EncodePod(pod: Pod): Json {
    Assemble(EncodeMetadata(pod), EncodeSpec(pod), EncodeStatus(pod.status))
  }

  function EncodeServiceAccount(account: ServiceAccount): Json {
    Obj(map["metadata" := Obj(map["name" := Str(account.name), "annotations" := Obj(Texts(account.annotations))])]
        + Given(account.automountServiceAccountToken, "automountServiceAccountToken", (b: bool) => Bool(b)))
  }

  // -------------------------------------------------------------------- round trips

  lemma PodSecurityRoundTrip(sc: PodSecurity)
    ensures DecodePodSecurity(Some(EncodePodSecurity(sc))) == Success(Some(sc))
  {
  }

  lemma SecurityRoundTrips(sc: Option<PodSecurity>)
    ensures DecodePodSecurity(if sc.Some? then Some(EncodePodSecurity(sc.value)) else None) == Success(sc)
  {
    if sc.Some? {
      PodSecurityRoundTrip(sc.value);
    }
  }

  lemma ContainerRoundTrip(c: Option<ContainerSecurity>)
    ensures DecodeContainer(EncodeContainer(c)) == Success(c)
  {
  }

  lemma TerminatedRoundTrip(t: Terminated)
    ensures DecodeTerminated(Some(EncodeTerminated(t))) == Success(Some(t))
  {
  }

  lemma StateMembers(c: ContainerStatus)
    ensures var state := Obj(EncodeState(c));
            && Member(state, "waiting") == (if c.waiting.Some? then Some(EncodeWaiting(c.waiting.value)) else None)
            && Member(state, "running") == (if c.running then Some(Obj(map[])) else None)
            && Member(state, "terminated") ==
               (if c.terminated.Some? then Some(EncodeTerminated(c.terminated.value)) else None)
  {
  }

  lemma ContainerStatusRoundTrip(c: ContainerStatus)
    ensures DecodeContainerStatus(EncodeContainerStatus(c)) == Success(c)
  {
    StateMembers(c);
    if c.terminated.Some? {
      TerminatedRoundTrip(c.terminated.value);
    }
  }

  lemma TextsRoundTrip(m: map<string, string>)
    ensures AsStringMap(Some(Obj(Texts(m)))) == Success(m)
  {
    var texts := Texts(m);
    assert (map k | k in texts :: TextOf(texts[k])) == m;
  }

  lemma ContainersRoundTrip(containers: seq<Option<ContainerSecurity>>)
    ensures DecodeEach(EncodeAll(containers, EncodeContainer), DecodeContainer) == Success(containers)
  {
    forall i | 0 <= i < |containers|
      ensures DecodeContainer(EncodeAll(containers, EncodeContainer)[i]) == Success(containers[i])
    {
      ContainerRoundTrip(containers[i]);
    }
    EachDetermined(EncodeAll(containers, EncodeContainer), DecodeContainer, containers);
  }

  lemma StatusesRoundTrip(statuses: seq<ContainerStatus>)
    ensures DecodeEach(EncodeAll(statuses, EncodeContainerStatus), DecodeContainerStatus) == Success(statuses)
  {
    forall i | 0 <= i < |statuses|
      ensures DecodeContainerStatus(EncodeAll(statuses, EncodeContainerStatus)[i]) == Success(statuses[i])
    {
      ContainerStatusRoundTrip(statuses[i]);
    }
    EachDetermined(EncodeAll(statuses, EncodeContainerStatus), DecodeContainerStatus, statuses);
  }

  lemma StatusMembers(status: Status)
    ensures var st := Obj(EncodeStatus(status));
            && Member(st, "phase") == Some(Str(status.phase))
            && Member(st, "initContainerStatuses") == Some(Arr(EncodeAll(status.initStatuses, EncodeContainerStatus)))
            && Member(st, "containerStatuses") == Some(Arr(EncodeAll(status.statuses, EncodeContainerStatus)))
  {
  }

  lemma StatusRoundTrip(status: Status, deletion: Option<Json>, inits: seq<Json>)
    requires deletion == if status.deleted then Some(Str("")) else None
    requires |inits| == status.initContainers
    ensures DecodeStatus(deletion, Some(Arr(inits)), Some(Obj(EncodeStatus(status)))) == Success(status)
  {
    StatusMembers(status);
    StatusesRoundTrip(status.initStatuses);
    StatusesRoundTrip(status.statuses);
  }

  lemma PodMembers(pod: Pod)
    ensures var metadata, spec := Obj(EncodeMetadata(pod)), Obj(EncodeSpec(pod));
            && Member(metadata, "annotations") == Some(Obj(Texts(pod.annotations)))
            && Member(metadata, "deletionTimestamp") == (if pod.status.deleted then Some(Str("")) else None)
            && Member(spec, "containers") == Some(Arr(EncodeAll(pod.containers, EncodeContainer)))
            && Member(spec, "initContainers") == Some(Arr(seq(pod.status.initContainers, _ => Obj(map[]))))
            && Member(spec, "securityContext") ==
               (if pod.securityContext.Some? then Some(EncodePodSecurity(pod.securityContext.value)) else None)
  {
  }

  function Assemble(metadata: Members, spec: Members, status: Members): Json {
    Obj(map["metadata" := Obj(metadata), "spec" := Obj(spec), "status" := Obj(status)])
  }

  lemma AssembledDecodes(metadata: Members, spec: Members, status: Members, pod: Pod)
    requires AsStringMap(Member(Obj(metadata), "annotations")) == Success(pod.annotations)
    requires DecodePodSecurity(Member(Obj(spec), "securityContext")) == Success(pod.securityContext)
    requires AsList(Member(Obj(spec), "containers")).Success?
    requires DecodeEach(AsList(Member(Obj(spec), "containers")).value, DecodeContainer) == Success(pod.containers)
    requires DecodeStatus(Member(Obj(metadata), "deletionTimestamp"), Member(Obj(spec), "initContainers"),
                          Some(Obj(status))) == Success(pod.status)
    ensures DecodePod(Assemble(metadata, spec, status)) == Success(pod)
  {
    var doc := Assemble(metadata, spec, status);
    assert Member(doc, "metadata") == Some(Obj(metadata));
    assert Member(doc, "spec") == Some(Obj(spec));
    assert Member(doc, "status") == Some(Obj(status));
  }

  /** A pod's document decodes to the pod. */
  lemma PodRoundTrip(pod: Pod)
    ensures DecodePod(EncodePod(pod)) == Success(pod)
  {
    PodMembers(pod);
    TextsRoundTrip(pod.annotations);
    ContainersRoundTrip(pod.containers);
    StatusRoundTrip(pod.status, Member(Obj(EncodeMetadata(pod)), "deletionTimestamp"),
                    seq(pod.status.initContainers, _ => Obj(map[])));
    SecurityRoundTrips(pod.securityContext);
    AssembledDecodes(EncodeMetadata(pod), EncodeSpec(pod), EncodeStatus(pod.status), pod);
  }

  /** A service account's document decodes to the account. */
  lemma AccountRoundTrip(account: ServiceAccount)
    ensures DecodeServiceAccount(EncodeServiceAccount(account)) == Success(account)
  {
    TextsRoundTrip(account.annotations);
  }

  // ------------------------------------------------------- nulls and wrong types

  /** A null member decodes like an absent one, at the top of a pod and in the objects below. */
  lemma NullIsAbsent(m: Members, name: string)
    ensures Member(Obj(m[name := Null]), name) == None == Member(Obj(m - {name}), name)
    ensures DecodePod(Obj(m[name := Null])) == DecodePod(Obj(m - {name}))
    ensures DecodeServiceAccount(Obj(m[name := Null])) == DecodeServiceAccount(Obj(m - {name}))
  {
    assert forall other :: Member(Obj(m[name := Null]), other) == Member(Obj(m - {name}), other);
  }

  /** A null annotation decodes to the empty string, and any other value that is no string fails. */
  lemma AnnotationValues(m: Members, decoded: map<string, string>, key: string, v: Json)
    requires AsStringMap(Some(Obj(m))) == Success(decoded)
    ensures AsStringMap(Some(Obj(m[key := v]))) ==
            match v
            case Str(text) => Success(decoded[key := text])
            case Null => Success(decoded[key := ""])
            case _ => Failure(WRONG_TYPE)
  {
    var m' := m[key := v];
    if v.Str? || v.Null? {
      var text := if v.Str? then v.s else "";
      assert forall k :: k in m' ==> IsText(m'[k]);
      assert (map k | k in m' :: TextOf(m'[k])) == decoded[key := text];
    } else {
      assert !IsText(m'[key]);
    }
  }

  /** A pod does not decode when a part that is read has another JSON type than its own. */
  lemma WrongTypesFail(m: Members, name: string, v: Json)
    requires name in ["metadata", "spec", "status"] && !v.Obj? && !v.Null?
    ensures DecodePod(Obj(m[name := v])).Failure?
    ensures DecodePod(v).Failure? && DecodePod(Null).Failure?
  {
    assert Member(Obj(m[name := v]), name) == Some(v);
  }
}
