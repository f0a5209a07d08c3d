/** Defaulting and validation of service accounts, and what their patch means. */
module ServiceAccounts {
  import opened Results
  import opened Text
  import opened JsonPatch
  import opened Resources
  import opened Pods
  import opened PodMutation
  import opened PodPatching
  import opened PodDefaulting

  const AUTOMOUNT := "automountServiceAccountToken"
  const AUTOMOUNT_PATH := "/automountServiceAccountToken"
  const AUTOMOUNT_INTERNAL := KARYDIA + "automountServiceAccountToken.internal"

  function AnnotateServiceAccount(account: ServiceAccount, key: string, value: string): Operation {
    if |account.annotations| == 0 then Add(ANNOTATIONS, Obj(map[key := Str(value)]))
    else Add(PathTo(ANNOTATIONS, EscapeSlash(key)), Str(value))
  }

  /** The setting covers this account and the account leaves the token mount undefined. */
  predicate LacksAutomount(account: ServiceAccount, setting: Setting) {
    account.automountServiceAccountToken.None?
    && (setting.value == "change-all" || (setting.value == "change-default" && account.name == "default"))
  }

  function ServiceAccountPatch(account: ServiceAccount, setting: Setting): seq<Operation> {
    if LacksAutomount(account, setting) then
      [Add(AUTOMOUNT_PATH, Bool(false)),
       AnnotateServiceAccount(account, AUTOMOUNT_INTERNAL, setting.src + "/" + setting.value)]
    else []
  }

  function ServiceAccountErrors(account: ServiceAccount, setting: Setting): seq<string> {
    if LacksAutomount(account, setting) then
      [if setting.value == "change-all" then "implicit automount of service account token not allowed"
       else "implicit automount of default service account token not allowed"]
    else []
  }

  method MutateServiceAccountTokenMount(account: ServiceAccount, setting: Setting, patches: Patches)
    modifies patches
    ensures patches.operations == old(patches.operations) + ServiceAccountPatch(account, setting)
    ensures patches.annotated == old(patches.annotated)
  {
    var value := setting.src + "/" + setting.value;
    if setting.value == "change-default" {
      if account.automountServiceAccountToken.None? && account.name == "default" {
        patches.operations := patches.operations + [Add(AUTOMOUNT_PATH, Bool(false))];
        patches.operations := patches.operations + [AnnotateServiceAccount(account, AUTOMOUNT_INTERNAL, value)];
      }
    } else if setting.value == "change-all" {
      if account.automountServiceAccountToken.None? {
        patches.operations := patches.operations + [Add(AUTOMOUNT_PATH, Bool(false))];
        patches.operations := patches.operations + [AnnotateServiceAccount(account, AUTOMOUNT_INTERNAL, value)];
      }
    }
  }

  method ValidateServiceAccountTokenMount(account: ServiceAccount, setting: Setting, validationErrors: seq<string>)
    returns (errors: seq<string>)
    ensures errors == validationErrors + ServiceAccountErrors(account, setting)
  {
    errors := validationErrors;
    if setting.value == "change-default" {
      if account.automountServiceAccountToken.None? && account.name == "default" {
        errors := errors + ["implicit automount of default service account token not allowed"];
      }
    } else if setting.value == "change-all" {
      if account.automountServiceAccountToken.None? {
        errors := errors + ["implicit automount of service account token not allowed"];
      }
    }
  }

  // -------------------------------------------------------- meaning of the patch

  function DefaultedAccount(account: ServiceAccount, setting: Setting): ServiceAccount {
    if LacksAutomount(account, setting) then
      account.(
        annotations := account.annotations[AUTOMOUNT_INTERNAL := setting.src + "/" + setting.value],
        automountServiceAccountToken := Some(false))
    else account
  }

  /** The account's document with the token mount switched off and the annotation merged in. */
  function DefaultedAccountDocument(j: Json, account: ServiceAccount, setting: Setting): Json
    requires j.Obj?
  {
    if LacksAutomount(account, setting) then
      Rewritten(Obj(j.members[AUTOMOUNT := Bool(false)]),
                Some(AnnotationsOf(j)[AUTOMOUNT_INTERNAL := Str(setting.src + "/" + setting.value)]), None)
    else j
  }

  predicate AccountReceptive(j: Json, account: ServiceAccount, setting: Setting) {
    LacksAutomount(account, setting) ==> HasObject(j, "metadata")
  }

  lemma AutomountPath()
    ensures ParsePointer(AUTOMOUNT_PATH) == Some([AUTOMOUNT])
  {
    PathOfOne(AUTOMOUNT_PATH, AUTOMOUNT);
  }

  lemma NoTildeInAutomountInternal()
    ensures '~' !in AUTOMOUNT_INTERNAL
  {
  }

  lemma AutomountIsTopLevel()
    ensures AUTOMOUNT != "metadata"
  {
    assert AUTOMOUNT[0] == 'a';
  }

  lemma DecodedAccountAnnotations(j: Json, account: ServiceAccount)
    requires DecodeServiceAccount(j) == Success(account)
    ensures AsStringMap(Member(Obj(MembersOf(j, "metadata")), "annotations")) == Success(account.annotations)
    ensures |account.annotations| == 0 <==> AnnotationsOf(j) == map[]
    ensures AnnotationsOf(j) != map[] ==>
              HasObject(j, "metadata") && HasObject(j.members["metadata"], "annotations")
  {
    assert account.annotations.Keys == AnnotationsOf(j).Keys;
    if |account.annotations| == 0 {
      assert AnnotationsOf(j).Keys == {};
    }
  }

  /** Annotating a document: the whole object when there are no annotations yet, one member otherwise. */
  lemma AnnotateDocument(doc: Members, whole: bool, key: string, v: Json)
    requires whole <==> AnnotationsOf(Obj(doc)) == map[]
    requires '~' !in key
    requires !whole ==> HasObject(Obj(doc), "metadata") && HasObject(doc["metadata"], "annotations")
    ensures ApplyOperation(Obj(doc),
              if whole then Add(ANNOTATIONS, Obj(map[key := v])) else Add(PathTo(ANNOTATIONS, EscapeSlash(key)), v)) ==
            if HasObject(Obj(doc), "metadata")
            then Some(Rewritten(Obj(doc), Some(AnnotationsOf(Obj(doc))[key := v]), None))
            else None
  {
    var annotations := AnnotationsOf(Obj(doc));
    var metadata := MembersOf(Obj(doc), "metadata");
    if whole {
      CreateAnnotations(doc, Obj(map[key := v]));
      assert map[key := v] == annotations[key := v];
      MetadataKinds(doc);
    } else {
      SetAnnotation(doc, metadata, annotations, key, v);
    }
  }

  /** Neither null nor any other non-object takes a member by name, but for an array's "-" and indices. */
  lemma MetadataKinds(doc: Members)
    ensures "metadata" in doc && !doc["metadata"].Obj? ==>
              forall v :: AddMember(doc["metadata"], "annotations", v).None?
  {
    assert "annotations"[10] == 's' && !IsDigit('s');
    assert ParseIndex("annotations").None?;
  }

  lemma AnnotateAccountMeaning(j: Json, account: ServiceAccount, doc: Members, key: string, value: string)
    requires DecodeServiceAccount(j) == Success(account)
    requires "metadata" in doc <==> "metadata" in j.members
    requires "metadata" in doc ==> doc["metadata"] == j.members["metadata"]
    requires '~' !in key
    ensures ApplyOperation(Obj(doc), AnnotateServiceAccount(account, key, value)) ==
            if HasObject(j, "metadata")
            then Some(Rewritten(Obj(doc), Some(AnnotationsOf(j)[key := Str(value)]), None))
            else None
  {
    DecodedAccountAnnotations(j, account);
    assert AnnotationsOf(Obj(doc)) == AnnotationsOf(j);
    AnnotateDocument(doc, |account.annotations| == 0, key, Str(value));
  }

  /** The patch of a service account applies exactly when needed metadata is there, and gives the defaulted document. */
  lemma AccountPatchMeaning(j: Json, account: ServiceAccount, setting: Setting)
    requires DecodeServiceAccount(j) == Success(account)
    ensures ApplyPatch(j, ServiceAccountPatch(account, setting)) ==
            if AccountReceptive(j, account, setting)
            then Some(DefaultedAccountDocument(j, account, setting))
            else None
  {
    if LacksAutomount(account, setting) {
      var value := setting.src + "/" + setting.value;
      NoTildeInAutomountInternal();
      MountThenAnnotate(j, account, AUTOMOUNT_INTERNAL, value);
    }
  }

  lemma MountThenAnnotate(j: Json, account: ServiceAccount, key: string, value: string)
    requires DecodeServiceAccount(j) == Success(account) && '~' !in key
    ensures ApplyPatch(j, [Add(AUTOMOUNT_PATH, Bool(false)), AnnotateServiceAccount(account, key, value)]) ==
            if HasObject(j, "metadata")
            then Some(Rewritten(Obj(j.members[AUTOMOUNT := Bool(false)]),
                                Some(AnnotationsOf(j)[key := Str(value)]), None))
            else None
  {
    var mount := Add(AUTOMOUNT_PATH, Bool(false));
    var note := AnnotateServiceAccount(account, key, value);
    var doc := j.members[AUTOMOUNT := Bool(false)];
    MountMeaning(j.members);
    AutomountIsTopLevel();
    AnnotateAccountMeaning(j, account, doc, key, value);
    PatchTwo(j, mount, note);
  }

  lemma MountMeaning(doc: Members)
    ensures ApplyOperation(Obj(doc), Add(AUTOMOUNT_PATH, Bool(false))) == Some(Obj(doc[AUTOMOUNT := Bool(false)]))
  {
    AutomountPath();
  }

  lemma RewrittenAccount(j: Json, account: ServiceAccount, annotations: Members)
    requires DecodeServiceAccount(j) == Success(account) && HasObject(j, "metadata")
    ensures var doc := Rewritten(Obj(j.members[AUTOMOUNT := Bool(false)]), Some(annotations), None);
            && Member(doc, "metadata") == Some(Obj(MembersOf(j, "metadata")["annotations" := Obj(annotations)]))
            && Member(doc, AUTOMOUNT) == Some(Bool(false))
  {
    AutomountIsTopLevel();
  }

  lemma PatchedAccountDecodes(j: Json, account: ServiceAccount, setting: Setting)
    requires DecodeServiceAccount(j) == Success(account)
    requires AccountReceptive(j, account, setting)
    ensures DecodeServiceAccount(DefaultedAccountDocument(j, account, setting))
         == Success(DefaultedAccount(account, setting))
  {
    if LacksAutomount(account, setting) {
      MountedDecodes(j, account, AUTOMOUNT_INTERNAL, setting.src + "/" + setting.value);
    }
  }

  lemma MountedDecodes(j: Json, account: ServiceAccount, key: string, value: string)
    requires DecodeServiceAccount(j) == Success(account) && HasObject(j, "metadata")
    ensures DecodeServiceAccount(
              Rewritten(Obj(j.members[AUTOMOUNT := Bool(false)]), Some(AnnotationsOf(j)[key := Str(value)]), None))
         == Success(account.(annotations := account.annotations[key := value],
                             automountServiceAccountToken := Some(false)))
  {
    RewrittenAccount(j, account, AnnotationsOf(j)[key := Str(value)]);
    DecodedAccountAnnotations(j, account);
    ObjectDecodes(MembersOf(j, "metadata"), account.annotations);
    AnnotationDecodes(AnnotationsOf(j), account.annotations, key, value);
  }

  lemma AnnotationDecodes(annotations: Members, decoded: map<string, string>, key: string, value: string)
    requires AsStringMap(Some(Obj(annotations))) == Success(decoded)
    ensures AsStringMap(Some(Obj(annotations[key := Str(value)]))) == Success(decoded[key := value])
  {
    var added := map[key := value];
    DecodedTexts(annotations, decoded, added);
    assert annotations + Texts(added) == annotations[key := Str(value)];
    assert decoded + added == decoded[key := value];
  }

  /** Absent annotations decode like an empty object. */
  lemma ObjectDecodes(metadata: Members, decoded: map<string, string>)
    requires AsStringMap(Member(Obj(metadata), "annotations")) == Success(decoded)
    ensures AsStringMap(Some(Obj(MembersOf(Obj(metadata), "annotations")))) == Success(decoded)
  {
  }

  /** Mutating a patched account emits nothing, and an explicit token mount is never changed. */
  lemma AccountMutationIsIdempotent(account: ServiceAccount, setting: Setting)
    ensures ServiceAccountPatch(DefaultedAccount(account, setting), setting) == []
    ensures account.automountServiceAccountToken.Some? ==> DefaultedAccount(account, setting) == account
  {
  }

  /** A service account fails validation exactly when its patch is non-empty. */
  lemma AccountValidationCharacterisesMutation(account: ServiceAccount, setting: Setting)
    ensures ServiceAccountErrors(account, setting) != [] <==> ServiceAccountPatch(account, setting) != []
  {
  }

  /** Every location but the token mount and the one annotation is the same after the patch. */
  lemma AccountPatchFrame(j: Json, account: ServiceAccount, setting: Setting, q: Pointer)
    requires DecodeServiceAccount(j) == Success(account)
    requires AccountReceptive(j, account, setting)
    requires LacksAutomount(account, setting) ==>
               Apart([AUTOMOUNT], q) && Apart(["metadata", "annotations", AUTOMOUNT_INTERNAL], q)
    ensures Get(DefaultedAccountDocument(j, account, setting), q) == Get(j, q)
  {
    if LacksAutomount(account, setting) {
      assert [AUTOMOUNT] == [AUTOMOUNT] + [];
      ApartTail(AUTOMOUNT, [], q);
      assert !Apart([], q[1..]);
      var value := setting.src + "/" + setting.value;
      var annotations := AnnotationsOf(j)[AUTOMOUNT_INTERNAL := Str(value)];
      RewrittenAccount(j, account, annotations);
      if q[0] == "metadata" {
        DecodedAccountAnnotations(j, account);
        var added := map[AUTOMOUNT_INTERNAL := value];
        assert ["metadata", "annotations", AUTOMOUNT_INTERNAL] == ["metadata"] + ["annotations", AUTOMOUNT_INTERNAL];
        ApartTail("metadata", ["annotations", AUTOMOUNT_INTERNAL], q);
        assert AUTOMOUNT_INTERNAL in added;
        MetadataFrame(MembersOf(j, "metadata"), added, q[1..]);
        assert AnnotationsOf(j) + Texts(added) == annotations;
      }
    }
  }
}
