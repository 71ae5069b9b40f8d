/** The key helpers behind the commands: the `key=value` reader of `/query`,
    the primary key `/get`, `/update` and `/delete` send, the key value shown
    for an item, and the key schema read from a table description. */
module Keys {
  import opened Values
  import opened GoStrings

  // ---------------------------------------------------------------------------
  // Key schema

  /** The key types DynamoDB gives a key schema element. */
  const Hash: string := "HASH"
  const Range: string := "RANGE"

  /** One element of a key schema: an attribute name and its key type. */
  datatype KeyElement = KeyElement(attributeName: string, keyType: string)

  /** What a table description says about one secondary index. */
  datatype IndexDescription = IndexDescription(indexName: string, keySchema: seq<KeyElement>)

  /** What a table description says about the table's keys. */
  datatype TableDescription = TableDescription(
    keySchema: seq<KeyElement>,
    globalIndexes: seq<IndexDescription>,
    localIndexes: seq<IndexDescription>)

  datatype IndexInfo = IndexInfo(name: string, partitionKey: string, sortKey: string)

  /** A table's name, its primary key names ("" when absent) and its indexes. */
  datatype TableInfo = TableInfo(
    name: string,
    partitionKey: string,
    sortKey: string,
    globalIndexes: seq<IndexInfo>,
    localIndexes: seq<IndexInfo>)

  /** The position of the last element of `keys` whose key type is `t`, or -1. */
  function LastOfType(keys: seq<KeyElement>, t: string): (r: int)
    ensures -1 <= r < |keys|
    ensures r >= 0 ==> keys[r].keyType == t && forall j :: r < j < |keys| ==> keys[j].keyType != t
    ensures r == -1 ==> forall j :: 0 <= j < |keys| ==> keys[j].keyType != t
  {
    if keys == [] then -1
    else if keys[|keys| - 1].keyType == t then |keys| - 1
    else LastOfType(keys[..|keys| - 1], t)
  }

  /** The name a key-schema loop leaves for key type `t`: that of the last
      element of that type, "" when there is none. */
  function NameOfType(keys: seq<KeyElement>, t: string): string {
    var i := LastOfType(keys, t);
    if i == -1 then "" else keys[i].attributeName
  }

  /** In a schema with a single element of type `t`, the loop finds its name. */
  lemma NameOfSingleType(keys: seq<KeyElement>, t: string, j: nat)
    requires j < |keys| && keys[j].keyType == t
    requires forall k :: 0 <= k < |keys| && k != j ==> keys[k].keyType != t
    ensures NameOfType(keys, t) == keys[j].attributeName
  {
  }

  /** A schema without an element of type `t` leaves that name empty. */
  lemma NameOfMissingType(keys: seq<KeyElement>, t: string)
    requires forall k :: 0 <= k < |keys| ==> keys[k].keyType != t
    ensures NameOfType(keys, t) == ""
  {
  }

  /** The key-schema loop of DescribeTable: every HASH element sets the
      partition key name, every RANGE element the sort key name, so the last
      of each wins; elements of any other type are passed over. */
  method ReadKeySchema(keys: seq<KeyElement>) returns (partitionKey: string, sortKey: string)
    ensures partitionKey == NameOfType(keys, Hash)
    ensures sortKey == NameOfType(keys, Range)
  {
    partitionKey, sortKey := "", "";
    var i := 0;
    while i < |keys|
      invariant 0 <= i <= |keys|
      invariant partitionKey == NameOfType(keys[..i], Hash)
      invariant sortKey == NameOfType(keys[..i], Range)
    {
      assert keys[..i + 1][..i] == keys[..i];
      if keys[i].keyType == Hash {
        partitionKey := keys[i].attributeName;
      } else if keys[i].keyType == Range {
        sortKey := keys[i].attributeName;
      }
      i := i + 1;
    }
    assert keys[..i] == keys;
  }

  /** The index information DescribeTable reports for one index. */
  function IndexInfoOf(d: IndexDescription): IndexInfo {
    IndexInfo(d.indexName, NameOfType(d.keySchema, Hash), NameOfType(d.keySchema, Range))
  }

  /** One loop over the global or the local indexes, appending one entry per index. */
  method ReadIndexes(ds: seq<IndexDescription>) returns (infos: seq<IndexInfo>)
    ensures |infos| == |ds|
    ensures forall i :: 0 <= i < |ds| ==> infos[i] == IndexInfoOf(ds[i])
  {
    infos := [];
    var i := 0;
    while i < |ds|
      invariant 0 <= i <= |ds| && |infos| == i
      invariant forall k :: 0 <= k < i ==> infos[k] == IndexInfoOf(ds[k])
    {
      var pk, sk := ReadKeySchema(ds[i].keySchema);
      infos := infos + [IndexInfo(ds[i].indexName, pk, sk)];
      i := i + 1;
    }
  }

  /** DescribeTable once the table description has arrived, or its error: the
      failure names the table; otherwise the key names and the indexes in order. */
  method DescribeTable(tableName: string, out: Result<TableDescription, string>) returns (r: Result<TableInfo, string>)
    ensures out.Err? ==> r == Err("failed to describe table " + tableName + ": " + out.error)
    ensures out.Ok? ==>
      (r.Ok?
       && r.value.name == tableName
       && r.value.partitionKey == NameOfType(out.value.keySchema, Hash)
       && r.value.sortKey == NameOfType(out.value.keySchema, Range)
       && |r.value.globalIndexes| == |out.value.globalIndexes|
       && (forall i :: 0 <= i < |out.value.globalIndexes| ==>
             r.value.globalIndexes[i] == IndexInfoOf(out.value.globalIndexes[i]))
       && |r.value.localIndexes| == |out.value.localIndexes|
       && (forall i :: 0 <= i < |out.value.localIndexes| ==>
             r.value.localIndexes[i] == IndexInfoOf(out.value.localIndexes[i])))
  {
    if out.Err? {
      return Err("failed to describe table " + tableName + ": " + out.error);
    }
    var info := TableInfo(tableName, "", "", [], []);
    var pk, sk := ReadKeySchema(out.value.keySchema);
    info := info.(partitionKey := pk, sortKey := sk);
    var gs := ReadIndexes(out.value.globalIndexes);
    info := info.(globalIndexes := gs);
    var ls := ReadIndexes(out.value.localIndexes);
    info := info.(localIndexes := ls);
    r := Ok(info);
  }

  // ---------------------------------------------------------------------------
  // key=value

  /** The text of a parse failure. */
  function InvalidKeyValue(keyValue: string): string {
    "invalid key=value format: " + keyValue
  }

  /** ParseKeyValue: splits at the first `=`, trims both sides, and reads the
      value as a number when `scansFloat` accepts it and it has no `"`, as a
      string otherwise. `scansFloat` stands for the `%f` scan. */
  function ParseKeyValue(keyValue: string, scansFloat: string -> bool): (r: Result<(string, AttrValue), string>)
    ensures r.Err? <==> '=' !in keyValue
    ensures r.Err? ==> r.error == InvalidKeyValue(keyValue)
    ensures r.Ok? ==>
      var i := IndexOf(keyValue, '=');
      var value := TrimSpace(keyValue[i + 1..]);
      r.value.0 == TrimSpace(keyValue[..i]) && '=' !in r.value.0
      && (r.value.1 == N(value) <==> scansFloat(value) && '"' !in value)
      && (r.value.1 == S(value) <==> !(scansFloat(value) && '"' !in value))
  {
    var i := IndexOf(keyValue, '=');
    if i == -1 then Err(InvalidKeyValue(keyValue))
    else
      var key := TrimSpace(keyValue[..i]);
      var value := TrimSpace(keyValue[i + 1..]);
      assert '=' !in keyValue[..i];
      TrimSpaceWithout(keyValue[..i], '=');
      if scansFloat(value) && '"' !in value then Ok((key, N(value))) else Ok((key, S(value)))
  }

  /** A name without `=` and a value, each without surrounding spaces, are read
      back from `name=value`, the value classified as it says. */
  lemma ParseKeyValueCompose(name: string, value: string, scansFloat: string -> bool)
    requires '=' !in name
    requires name == [] || (!IsSpace(name[0]) && !IsSpace(name[|name| - 1]))
    requires value == [] || (!IsSpace(value[0]) && !IsSpace(value[|value| - 1]))
    ensures ParseKeyValue(name + "=" + value, scansFloat)
      == Ok((name, if scansFloat(value) && '"' !in value then N(value) else S(value)))
  {
    var kv := name + "=" + value;
    assert IndexOf(kv, '=') == |name| && kv[..|name|] == name && kv[|name| + 1..] == value by {
      SplitAtFirstEquals(name, value);
    }
    assert TrimSpace(name) == name by { TrimmedUnchanged(name); }
    assert TrimSpace(value) == value by { TrimmedUnchanged(value); }
    ParseSplit(kv, |name|, name, value, scansFloat);
  }

  /** ParseKeyValue once the line is known to split at its first `=` into
      two trimmed parts. */
  lemma ParseSplit(kv: string, i: int, name: string, value: string, scansFloat: string -> bool)
    requires 0 <= i < |kv| && IndexOf(kv, '=') == i && kv[..i] == name && kv[i + 1..] == value
    requires TrimSpace(name) == name && TrimSpace(value) == value
    ensures ParseKeyValue(kv, scansFloat) == Ok((name, if scansFloat(value) && '"' !in value then N(value) else S(value)))
  {
    var r := ParseKeyValue(kv, scansFloat);
    assert r.Ok?;
    assert r.value.0 == name;
    if scansFloat(value) && '"' !in value {
      assert r.value.1 == N(value);
    } else {
      assert r.value.1 == S(value);
    }
  }

  lemma SplitAtFirstEquals(name: string, value: string)
    requires '=' !in name
    ensures var kv := name + "=" + value;
      IndexOf(kv, '=') == |name| && kv[..|name|] == name && kv[|name| + 1..] == value
  {
    var kv := name + "=" + value;
    assert kv[|name|] == '=';
    assert forall j :: 0 <= j < |name| ==> kv[j] == name[j];
    assert kv[..|name|] == name;
    assert kv[|name| + 1..] == value;
  }

  // ---------------------------------------------------------------------------
  // Primary keys

  /** BuildKey: the partition key always, as a string; the sort key, as a
      string, only when the table has one and a value for it is given. The Go
      function's error result is always nil and is not modelled. */
  function BuildKey(info: TableInfo, pkValue: string, skValue: string): (key: Item)
    ensures UniqueKeys(key)
    ensures info.sortKey != "" && skValue != "" ==>
      Keys(key) == {info.partitionKey, info.sortKey}
      && Lookup(key, info.sortKey) == Some(S(skValue))
      && (info.sortKey != info.partitionKey ==> Lookup(key, info.partitionKey) == Some(S(pkValue)))
    ensures !(info.sortKey != "" && skValue != "") ==>
      key == [(info.partitionKey, S(pkValue))]
  {
    var key := Assign([], info.partitionKey, S(pkValue));
    AssignKeepsUnique([], info.partitionKey, S(pkValue));
    if info.sortKey != "" && skValue != "" then
      AssignKeepsUnique(key, info.sortKey, S(skValue));
      Assign(key, info.sortKey, S(skValue))
    else key
  }

  /** GetKeyValue: "" for an empty key name or a missing attribute, the text of
      a string or number, and the `%v` rendering (`show`) of anything else. */
  function GetKeyValue(item: Item, keyName: string, show: AttrValue -> string): (r: string)
    ensures keyName == "" ==> r == ""
    ensures keyName != "" && keyName !in Keys(item) ==> r == ""
  {
    if keyName == "" then ""
    else
      match Lookup(item, keyName)
      case None => ""
      case Some(av) =>
        if av.S? then av.s
        else if av.N? then av.n
        else show(av)
  }

  /** The value shown for a key of the item it names: the string or number
      text, or the `%v` rendering of any other value. */
  lemma GetKeyValueFound(item: Item, keyName: string, a: AttrValue, show: AttrValue -> string)
    requires keyName != "" && Lookup(item, keyName) == Some(a)
    ensures a.S? ==> GetKeyValue(item, keyName, show) == a.s
    ensures a.N? ==> GetKeyValue(item, keyName, show) == a.n
    ensures !a.S? && !a.N? ==> GetKeyValue(item, keyName, show) == show(a)
  {
  }

  /** The key BuildKey makes gives back the values it was built from. */
  lemma BuildThenGet(info: TableInfo, pkValue: string, skValue: string, show: AttrValue -> string)
    requires info.partitionKey != "" && info.partitionKey != info.sortKey
    ensures GetKeyValue(BuildKey(info, pkValue, skValue), info.partitionKey, show) == pkValue
    ensures info.sortKey != "" && skValue != "" ==>
      GetKeyValue(BuildKey(info, pkValue, skValue), info.sortKey, show) == skValue
    ensures !(info.sortKey != "" && skValue != "") ==>
      GetKeyValue(BuildKey(info, pkValue, skValue), info.sortKey, show) == ""
  {
    var key := BuildKey(info, pkValue, skValue);
    if info.sortKey != "" && skValue != "" {
      GetKeyValueFound(key, info.partitionKey, S(pkValue), show);
      GetKeyValueFound(key, info.sortKey, S(skValue), show);
    } else {
      assert Lookup(key, info.partitionKey) == Some(S(pkValue));
      assert Lookup(key, info.sortKey) == None;
    }
  }
}
