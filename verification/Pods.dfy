/**
 The typed view that decoding gives of a pod's and a service account's JSON.
 A null member decodes like an absent one; a member of the wrong JSON type is
 a decoding error.
 */
module Pods {
  import opened Results
  import opened JsonPatch

  datatype PodSecurity = PodSecurity(runAsUser: Option<int>, runAsGroup: Option<int>)

  datatype ContainerSecurity = ContainerSecurity(allowPrivilegeEscalation: Option<bool>)

  datatype Terminated = Terminated(exitCode: int, signal: int, reason: string)

  /** A container's status: the reason it waits, whether it runs, how it terminated. */
  datatype ContainerStatus = ContainerStatus(
    ready: bool, waiting: Option<string>, running: bool, terminated: Option<Terminated>)

  datatype Status = Status(
    phase: string,
    initContainers: nat,
    initStatuses: seq<ContainerStatus>,
    statuses: seq<ContainerStatus>,
    deleted: bool)

  /** The parts of a pod that the admission code reads. */
  datatype Pod = Pod(
    annotations: map<string, string>,
    securityContext: Option<PodSecurity>,
    containers: seq<Option<ContainerSecurity>>,
    status: Status)

  datatype ServiceAccount = ServiceAccount(
    name: string, annotations: map<string, string>, automountServiceAccountToken: Option<bool>)

  const WRONG_TYPE := "cannot unmarshal value of this type"

  // ------------------------------------------------------------- JSON members

  function Member(j: Json, name: string): Option<Json> {
    if j.Obj? && name in j.members && !j.members[name].Null? then Some(j.members[name]) else None
  }

  /** A struct that is embedded by value: absent and null both decode to the zero struct. */
  function AsStruct(o: Option<Json>): Result<Json> {
    match o
    case None => Success(Obj(map[]))
    case Some(Obj(m)) => Success(Obj(m))
    case Some(_) => Failure(WRONG_TYPE)
  }

  function AsString(o: Option<Json>): Result<string> {
    match o
    case None => Success("")
    case Some(Str(s)) => Success(s)
    case Some(_) => Failure(WRONG_TYPE)
  }

  function AsOptionalInt(o: Option<Json>): Result<Option<int>> {
    match o
    case None => Success(None)
    case Some(Num(n)) => Success(Some(n))
    case Some(_) => Failure(WRONG_TYPE)
  }

  function AsOptionalBool(o: Option<Json>): Result<Option<bool>> {
    match o
    case None => Success(None)
    case Some(Bool(b)) => Success(Some(b))
    case Some(_) => Failure(WRONG_TYPE)
  }

  function AsList(o: Option<Json>): Result<seq<Json>> {
    match o
    case None => Success([])
    case Some(Arr(a)) => Success(a)
    case Some(_) => Failure(WRONG_TYPE)
  }

  predicate IsText(j: Json) {
    j.Str? || j.Null?
  }

  function TextOf(j: Json): string {
    if j.Str? then j.s else ""
  }

  function AsStringMap(o: Option<Json>): Result<map<string, string>> {
    match o
    case None => Success(map[])
    case Some(Obj(m)) =>
      if forall k :: k in m ==> IsText(m[k]) then Success(map k | k in m :: TextOf(m[k]))
      else Failure(WRONG_TYPE)
    case Some(_) => Failure(WRONG_TYPE)
  }

  /** Decodes every element, failing if one fails. */
  function DecodeEach<T>(elems: seq<Json>, decode: Json -> Result<T>): (r: Result<seq<T>>)
    ensures r.Success? <==> forall i :: 0 <= i < |elems| ==> decode(elems[i]).Success?
    ensures r.Success? ==> |r.value| == |elems|
    ensures r.Success? ==> forall i :: 0 <= i < |elems| ==> decode(elems[i]) == Success(r.value[i])
  {
    if elems == [] then Success([])
    else
      var first :- decode(elems[0]);
      var rest :- DecodeEach(elems[1..], decode);
      Success([first] + rest)
  }

  // ----------------------------------------------------------------- resources

  function DecodePodSecurity(o: Option<Json>): Result<Option<PodSecurity>> {
    if o.None? then Success(None)
    else
      var sc :- AsStruct(o);
      var user :- AsOptionalInt(Member(sc, "runAsUser"));
      var group :- AsOptionalInt(Member(sc, "runAsGroup"));
      Success(Some(PodSecurity(user, group)))
  }

  function DecodeContainerSecurity(o: Option<Json>): Result<Option<ContainerSecurity>> {
    if o.None? then Success(None)
    else
      var sc :- AsStruct(o);
      var allow :- AsOptionalBool(Member(sc, "allowPrivilegeEscalation"));
      Success(Some(ContainerSecurity(allow)))
  }

  /** A container element; null decodes to the zero container, which has no security context. */
  function DecodeContainer(c: Json): Result<Option<ContainerSecurity>> {
    if !c.Obj? && !c.Null? then Failure(WRONG_TYPE) else DecodeContainerSecurity(Member(c, "securityContext"))
  }

  function DecodeTerminated(o: Option<Json>): Result<Option<Terminated>> {
    if o.None? then Success(None)
    else
      var t :- AsStruct(o);
      var exitCode :- AsOptionalInt(Member(t, "exitCode"));
      var signal :- AsOptionalInt(Member(t, "signal"));
      var reason :- AsString(Member(t, "reason"));
      Success(Some(Terminated(
        if exitCode.Some? then exitCode.value else 0, if signal.Some? then signal.value else 0, reason)))
  }

  function DecodeWaiting(o: Option<Json>): Result<Option<string>> {
    if o.None? then Success(None)
    else
      var w :- AsStruct(o);
      var reason :- AsString(Member(w, "reason"));
      Success(Some(reason))
  }

  function DecodeContainerStatus(c: Json): Result<ContainerStatus> {
    var c :- AsStruct(if c.Null? then None else Some(c));
    var ready :- AsOptionalBool(Member(c, "ready"));
    var state :- AsStruct(Member(c, "state"));
    var waiting :- DecodeWaiting(Member(state, "waiting"));
    var _ :- AsStruct(Member(state, "running"));
    var terminated :- DecodeTerminated(Member(state, "terminated"));
    Success(ContainerStatus(ready == Some(true), waiting, Member(state, "running").Some?, terminated))
  }

  function DecodeStatus(deletion: Option<Json>, initContainers: Option<Json>, status: Option<Json>): Result<Status> {
    var _ :- AsString(deletion);
    var inits :- AsList(initContainers);
    var st :- AsStruct(status);
    var phase :- AsString(Member(st, "phase"));
    var initElems :- AsList(Member(st, "initContainerStatuses"));
    var initStatuses :- DecodeEach(initElems, DecodeContainerStatus);
    var elems :- AsList(Member(st, "containerStatuses"));
    var statuses :- DecodeEach(elems, DecodeContainerStatus);
    Success(Status(phase, |inits|, initStatuses, statuses, deletion.Some?))
  }

  function DecodePod(j: Json): Result<Pod> {
    if !j.Obj? then Failure(WRONG_TYPE)
    else
      var metadata :- AsStruct(Member(j, "metadata"));
      var spec :- AsStruct(Member(j, "spec"));
      var annotations :- AsStringMap(Member(metadata, "annotations"));
      var securityContext :- DecodePodSecurity(Member(spec, "securityContext"));
      var elems :- AsList(Member(spec, "containers"));
      var containers :- DecodeEach(elems, DecodeContainer);
      var status :- DecodeStatus(Member(metadata, "deletionTimestamp"), Member(spec, "initContainers"),
                                 Member(j, "status"));
      Success(Pod(annotations, securityContext, containers, status))
  }

  function DecodeServiceAccount(j: Json): Result<ServiceAccount> {
    if !j.Obj? then Failure(WRONG_TYPE)
    else
      var metadata :- AsStruct(Member(j, "metadata"));
      var name :- AsString(Member(metadata, "name"));
      var annotations :- AsStringMap(Member(metadata, "annotations"));
      var automount :- AsOptionalBool(Member(j, "automountServiceAccountToken"));
      Success(ServiceAccount(name, annotations, automount))
  }
}
