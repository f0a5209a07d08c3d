/** Namespaced names and the strings that stand for them in work queues. */
module ObjectKeys {
  import opened Results
  import opened Text

  datatype Key = Key(namespace: string, name: string)

  /** cache.SplitMetaNamespaceKey. */
  function SplitKey(key: string): Option<Key> {
    var parts := Split(key, '/');
    if |parts| == 1 then Some(Key("", parts[0]))
    else if |parts| == 2 then Some(Key(parts[0], parts[1]))
    else None
  }

  /** cache.MetaNamespaceKeyFunc; a cluster-scoped object has no namespace. */
  function KeyString(key: Key): string {
    if key.namespace == "" then key.name else key.namespace + "/" + key.name
  }

  /** The key of a namespaced object is read back as its namespace and name. */
  lemma KeyRoundTrip(key: Key)
    requires key.namespace != "" && '/' !in key.namespace && '/' !in key.name
    ensures SplitKey(KeyString(key)) == Some(key)
  {
    var parts := [key.namespace, key.name];
    assert parts[1..] == [key.name];
    assert Join(parts, '/') == key.namespace + ['/'] + key.name;
    SplitJoin(parts, '/');
  }

  /** Whatever its name, an object's key is read back, if at all, with the object's namespace. */
  lemma KeyNamespace(key: Key)
    requires key.namespace != "" && '/' !in key.namespace
    ensures SplitKey(KeyString(key)).Some? ==> SplitKey(KeyString(key)).value.namespace == key.namespace
  {
    assert key.namespace + "/" + key.name == key.namespace + ['/'] + key.name;
    SplitHead(key.namespace, key.name, '/');
  }

  /** The key of a cluster-scoped object is its name. */
  lemma ClusterKeyRoundTrip(name: string)
    requires '/' !in name
    ensures KeyString(Key("", name)) == name && SplitKey(name) == Some(Key("", name))
  {
    SplitOne(name, '/');
  }
}
