/**
 JSON documents, JSON Pointers (RFC 6901) and the "add" operation of JSON Patch
 (section 4.1 of RFC 6902), applied in order and failing as a whole when one
 operation fails (section 5 of RFC 6902).
 */
module JsonPatch {
  import opened Results
  import opened Text

  datatype Json =
    | Null
    | Bool(b: bool)
    | Num(n: int)
    | Str(s: string)
    | Arr(elems: seq<Json>)
    | Obj(members: map<string, Json>)

  /** A patch operation of the program; every one it emits is an "add". */
  datatype Operation = Add(path: string, value: Json)

  type Pointer = seq<string>

  function UnescapeAll(tokens: seq<string>): Option<Pointer> {
    if tokens == [] then Some([])
    else
      var first :- UnescapeToken(tokens[0]);
      var rest :- UnescapeAll(tokens[1..]);
      Some([first] + rest)
  }

  /** Sections 3 and 4 of RFC 6901: the empty pointer is the whole document, any other starts with a slash. */
  function ParsePointer(path: string): Option<Pointer> {
    if path == "" then Some([])
    else if path[0] != '/' then None
    else UnescapeAll(Split(path[1..], '/'))
  }

  function Child(j: Json, token: string): Option<Json> {
    match j
    case Obj(m) => if token in m then Some(m[token]) else None
    case Arr(a) =>
      var i :- ParseIndex(token);
      if i < |a| then Some(a[i]) else None
    case _ => None
  }

  function Get(j: Json, ptr: Pointer): Option<Json> {
    if ptr == [] then Some(j)
    else
      var c :- Child(j, ptr[0]);
      Get(c, ptr[1..])
  }

  /** The "add" of one value at the last token: sets an object member or inserts before an array index. */
  function AddMember(j: Json, token: string, v: Json): Option<Json> {
    match j
    case Obj(m) => Some(Obj(m[token := v]))
    case Arr(a) =>
      if token == "-" then Some(Arr(a + [v]))
      else
        var i :- ParseIndex(token);
        if i <= |a| then Some(Arr(a[..i] + [v] + a[i..])) else None
    case _ => None
  }

  function ReplaceChild(j: Json, token: string, c: Json): Json
    requires Child(j, token).Some?
  {
    match j
    case Obj(m) => Obj(m[token := c])
    case Arr(a) => Arr(a[ParseIndex(token).value := c])
  }

  function AddAt(j: Json, ptr: Pointer, v: Json): Option<Json>
    decreases |ptr|
  {
    if ptr == [] then Some(v)
    else if |ptr| == 1 then AddMember(j, ptr[0], v)
    else
      var c :- Child(j, ptr[0]);
      var c' :- AddAt(c, ptr[1..], v);
      Some(ReplaceChild(j, ptr[0], c'))
  }

  function ApplyOperation(j: Json, op: Operation): Option<Json> {
    var ptr :- ParsePointer(op.path);
    AddAt(j, ptr, op.value)
  }

  function ApplyPatch(j: Json, ops: seq<Operation>): Option<Json>
    decreases |ops|
  {
    if ops == [] then Some(j)
    else
      var j' :- ApplyOperation(j, ops[0]);
      ApplyPatch(j', ops[1..])
  }

  // ------------------------------------------------------------ laws of "add"

  /** The added value is found where it was put ("-" names a position, not a value). */
  lemma {:induction false} AddThenGet(j: Json, ptr: Pointer, v: Json)
    requires AddAt(j, ptr, v).Some?
    requires ptr == [] || ptr[|ptr| - 1] != "-"
    ensures Get(AddAt(j, ptr, v).value, ptr) == Some(v)
    decreases |ptr|
  {
    if |ptr| == 1 {
      assert Get(v, ptr[1..]) == Some(v);
    } else if |ptr| > 1 {
      AddThenGet(Child(j, ptr[0]).value, ptr[1..], v);
    }
  }

  /** Two pointers that part ways before either one ends. */
  predicate Apart(p: Pointer, q: Pointer) {
    p != [] && q != [] && (p[0] != q[0] || Apart(p[1..], q[1..]))
  }

  /** Adding an object member leaves every location on another branch as it was. */
  lemma {:induction false} AddFrame(j: Json, ptr: Pointer, v: Json, other: Pointer)
    requires AddAt(j, ptr, v).Some?
    requires Apart(ptr, other)
    requires Get(j, ptr[..|ptr| - 1]).Some? && Get(j, ptr[..|ptr| - 1]).value.Obj?
    ensures Get(AddAt(j, ptr, v).value, other) == Get(j, other)
    decreases |ptr|
  {
    if |ptr| > 1 {
      var c := Child(j, ptr[0]).value;
      assert ptr[..|ptr| - 1][1..] == ptr[1..][..|ptr| - 2];
      if ptr[0] == other[0] {
        AddFrame(c, ptr[1..], v, other[1..]);
      } else if j.Arr? && ParseIndex(other[0]).Some? {
        IndexRoundTrip(ParseIndex(other[0]).value, ptr[0]);
        IndexRoundTrip(ParseIndex(other[0]).value, other[0]);
      }
    }
  }

  /** Adding at an array index inserts: what was there and after it moves up by one. */
  lemma AddInserts(elems: seq<Json>, token: string, i: nat, v: Json)
    requires ParseIndex(token) == Some(i) && token != "-"
    ensures i > |elems| ==> AddMember(Arr(elems), token, v) == None
    ensures i <= |elems| ==>
              match AddMember(Arr(elems), token, v)
              case Some(Arr(longer)) =>
                && |longer| == |elems| + 1 && longer[i] == v
                && (forall k :: 0 <= k < i ==> longer[k] == elems[k])
                && (forall k :: i <= k < |elems| ==> longer[k + 1] == elems[k])
              case _ => false
  {
  }

  /** What an "add" adds to is there, and takes the last token of the pointer. */
  lemma {:induction false} AddHasParent(j: Json, ptr: Pointer, v: Json)
    requires ptr != [] && AddAt(j, ptr, v).Some?
    ensures Get(j, ptr[..|ptr| - 1]).Some?
    ensures AddMember(Get(j, ptr[..|ptr| - 1]).value, ptr[|ptr| - 1], v).Some?
    decreases |ptr|
  {
    if |ptr| > 1 {
      AddHasParent(Child(j, ptr[0]).value, ptr[1..], v);
      assert ptr[..|ptr| - 1][1..] == ptr[1..][..|ptr| - 2];
    }
  }

  /**
   An "add" at a member name, that is, not at an array index: the value is there afterwards
   and all branches beside it are as before.
   */
  lemma AddLands(j: Json, ptr: Pointer, v: Json, other: Pointer)
    requires ptr != [] && AddAt(j, ptr, v).Some?
    requires ptr[|ptr| - 1] != "-" && ParseIndex(ptr[|ptr| - 1]).None?
    ensures Get(AddAt(j, ptr, v).value, ptr) == Some(v)
    ensures Apart(ptr, other) ==> Get(AddAt(j, ptr, v).value, other) == Get(j, other)
  {
    AddThenGet(j, ptr, v);
    AddHasParent(j, ptr, v);
    if Apart(ptr, other) {
      AddFrame(j, ptr, v, other);
    }
  }

  /** The same for an operation. */
  lemma OperationLands(j: Json, j': Json, op: Operation, ptr: Pointer, other: Pointer)
    requires ApplyOperation(j, op) == Some(j') && ParsePointer(op.path) == Some(ptr) && ptr != []
    requires ptr[|ptr| - 1] != "-" && ParseIndex(ptr[|ptr| - 1]).None?
    ensures Get(j', ptr) == Some(op.value)
    ensures Apart(ptr, other) ==> Get(j', other) == Get(j, other)
  {
    AddLands(j, ptr, op.value, other);
  }

  /** When the value is an object, its members are found below the pointer. */
  lemma ObjectLands(j: Json, j': Json, op: Operation, ptr: Pointer, name: string, other: Pointer)
    requires ApplyOperation(j, op) == Some(j') && ParsePointer(op.path) == Some(ptr) && ptr != []
    requires ptr[|ptr| - 1] != "-" && ParseIndex(ptr[|ptr| - 1]).None?
    requires op.value.Obj? && name in op.value.members
    ensures Get(j', ptr + [name]) == Some(op.value.members[name])
    ensures Apart(ptr, other) ==> Get(j', other) == Get(j, other)
  {
    OperationLands(j, j', op, ptr, other);
    GetThrough(j', ptr, [name]);
    GetMember(op.value, name);
  }

  lemma {:induction false} GetThrough(j: Json, front: Pointer, rest: Pointer)
    requires Get(j, front).Some?
    ensures Get(j, front + rest) == Get(Get(j, front).value, rest)
    decreases |front|
  {
    if front == [] {
      assert front + rest == rest;
    } else {
      assert (front + rest)[1..] == front[1..] + rest;
      GetThrough(Child(j, front[0]).value, front[1..], rest);
    }
  }

  lemma GetMember(j: Json, token: string)
    requires j.Obj? && token in j.members
    ensures Get(j, [token]) == Some(j.members[token])
  {
    assert [token][1..] == [];
  }

  lemma {:induction false} PatchConcat(j: Json, first: seq<Operation>, second: seq<Operation>)
    ensures ApplyPatch(j, first + second) ==
            match ApplyPatch(j, first)
            case None => None
            case Some(mid) => ApplyPatch(mid, second)
    decreases |first|
  {
    if first == [] {
      assert first + second == second;
    } else {
      assert (first + second)[1..] == first[1..] + second;
      match ApplyOperation(j, first[0]) {
        case None =>
        case Some(mid) => PatchConcat(mid, first[1..], second);
      }
    }
  }

  lemma PatchOne(j: Json, op: Operation)
    ensures ApplyPatch(j, [op]) == ApplyOperation(j, op)
  {
    assert [op][1..] == [];
  }

  lemma PatchTwo(j: Json, first: Operation, second: Operation)
    requires ApplyOperation(j, first).Some?
    ensures ApplyPatch(j, [first, second]) == ApplyOperation(ApplyOperation(j, first).value, second)
  {
    assert [first, second][1..] == [second];
    PatchOne(ApplyOperation(j, first).value, second);
  }

  // ------------------------------------------------ pointers the program writes

  predicate Plain(token: string) {
    '/' !in token && '~' !in token
  }

  lemma {:induction false} PlainIsItsOwnEscape(token: string)
    requires '/' !in token
    ensures EscapeSlash(token) == token
  {
    if token == "" {
    } else {
      PlainIsItsOwnEscape(token[1..]);
      assert token == [token[0]] + token[1..];
    }
  }

  lemma UnescapeOne(token: string)
    requires UnescapeToken(token).Some?
    ensures UnescapeAll([token]) == Some([UnescapeToken(token).value])
  {
    assert [token][1..] == [];
    var back := UnescapeToken(token).value;
    assert [back] + [] == [back];
  }

  lemma {:induction false} UnescapeSnoc(tokens: seq<string>, last: string)
    requires UnescapeAll(tokens).Some? && UnescapeToken(last).Some?
    ensures UnescapeAll(tokens + [last]) == Some(UnescapeAll(tokens).value + [UnescapeToken(last).value])
  {
    var all := tokens + [last];
    if tokens == [] {
      assert all == [last];
      UnescapeOne(last);
      var back := [UnescapeToken(last).value];
      assert [] + back == back;
    } else {
      assert all[1..] == tokens[1..] + [last];
      UnescapeSnoc(tokens[1..], last);
      var front, end := UnescapeAll(tokens[1..]).value, UnescapeToken(last).value;
      assert ([UnescapeToken(tokens[0]).value] + front) + [end] == [UnescapeToken(tokens[0]).value] + (front + [end]);
    }
  }

  function PathTo(path: string, token: string): string {
    path + "/" + token
  }

  /** Appending a slash and an escaped key to a path appends the key to its pointer. */
  lemma ExtendPath(path: string, ptr: Pointer, key: string)
    requires path != "" && ParsePointer(path) == Some(ptr)
    requires '~' !in key
    ensures ParsePointer(PathTo(path, EscapeSlash(key))) == Some(ptr + [key])
  {
    var longer := PathTo(path, EscapeSlash(key));
    assert longer[1..] == path[1..] + ['/'] + EscapeSlash(key);
    EscapeHasNoSlash(key);
    SplitLast(path[1..], EscapeSlash(key), '/');
    EscapePlain(key);
    UnescapeSnoc(Split(path[1..], '/'), EscapeSlash(key));
  }

  lemma ExtendPlainPath(path: string, ptr: Pointer, token: string)
    requires path != "" && ParsePointer(path) == Some(ptr)
    requires Plain(token)
    ensures ParsePointer(PathTo(path, token)) == Some(ptr + [token])
  {
    PlainIsItsOwnEscape(token);
    ExtendPath(path, ptr, token);
  }

  lemma PathOfOne(path: string, token: string)
    requires path == "/" + token && Plain(token)
    ensures ParsePointer(path) == Some([token])
  {
    PlainIsItsOwnEscape(token);
    EscapePlain(token);
    assert path[1..] == token;
    SplitOne(token, '/');
    UnescapeOne(token);
  }

  lemma PathOfTwo(path: string, first: string, second: string)
    requires path == PathTo("/" + first, second) && Plain(first) && Plain(second)
    ensures ParsePointer(path) == Some([first, second])
  {
    var one := "/" + first;
    PathOfOne(one, first);
    ExtendPlainPath(one, [first], second);
    assert [first] + [second] == [first, second];
  }
}
