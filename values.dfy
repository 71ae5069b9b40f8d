/** Value types shared by the codec, the key helpers and the session.

    Go strings are byte strings; here a string is a `seq<char>` in which one char
    stands for one byte. A Go map is modelled as an association list: the order of
    the list is the order in which `range` happens to visit the map. Maps built by
    the model itself go through `Assign`, which keeps keys unique. */
module Values {

  datatype Option<+T> = None | Some(value: T)

  datatype Result<+T, +E> = Ok(value: T) | Err(error: E)

  type Byte = b: int | 0 <= b < 256

  type Bytes = seq<Byte>

  /** A JSON value tree (RFC 8259) as encoding/json reads or writes it. */
  datatype Json =
    | JNull
    | JBool(b: bool)
    | JNumber(text: string)
    | JString(s: string)
    | JArray(elems: seq<Json>)
    | JObject(members: seq<(string, Json)>)

  /** The dynamically typed Go values (`any`) that the codec passes around. */
  datatype Value =
    | VNil                                 // nil
    | VBool(b: bool)                       // bool
    | VString(s: string)                   // string
    | VNumber(text: string)                // json.Number
    | VFloat(literal: string)              // float64 read by json.Unmarshal, kept as its literal
    | VBytes(bytes: Bytes)                 // []byte
    | VList(elems: seq<Value>)             // []any
    | VMap(entries: seq<(string, Value)>)  // map[string]any
    | VStrings(strs: seq<string>)          // []string (payload of the "__SS" / "__NS" markers)
    | VByteSlices(slices: seq<Bytes>)      // [][]byte (payload of the "__BS" marker)

  /** A DynamoDB attribute value. */
  datatype AttrValue =
    | S(s: string)
    | N(n: string)
    | BOOL(b: bool)
    | NULL
    | L(l: seq<AttrValue>)
    | M(m: seq<(string, AttrValue)>)
    | SS(ss: seq<string>)
    | NS(ns: seq<string>)
    | B(bytes: Bytes)
    | BS(bs: seq<Bytes>)

  /** A DynamoDB record: attribute name to value. */
  type Item = seq<(string, AttrValue)>

  /** The keys of a Go map. */
  function Keys<T>(es: seq<(string, T)>): set<string>
  {
    if es == [] then {} else {es[0].0} + Keys(es[1..])
  }

  lemma {:induction false} KeysAt<T>(es: seq<(string, T)>, i: nat)
    requires i < |es|
    ensures es[i].0 in Keys(es)
  {
    if i > 0 { KeysAt(es[1..], i - 1); }
  }

  lemma {:induction false} KeyIndex<T>(es: seq<(string, T)>, k: string) returns (i: nat)
    requires k in Keys(es)
    ensures i < |es| && es[i].0 == k
  {
    if es[0].0 == k {
      i := 0;
    } else {
      var j := KeyIndex(es[1..], k);
      i := j + 1;
    }
  }

  predicate UniqueKeys<T>(es: seq<(string, T)>) {
    forall i, j :: 0 <= i < j < |es| ==> es[i].0 != es[j].0
  }

  /** `m[k]` on a Go map: the value stored under `k`, if any. */
  function Lookup<T>(es: seq<(string, T)>, k: string): (r: Option<T>)
    ensures r.None? <==> k !in Keys(es)
  {
    if es == [] then None
    else if es[0].0 == k then Some(es[0].1)
    else Lookup(es[1..], k)
  }

  lemma {:induction false} LookupFound<T>(es: seq<(string, T)>, k: string) returns (i: nat)
    requires Lookup(es, k).Some?
    ensures i < |es| && es[i] == (k, Lookup(es, k).value)
  {
    if es[0].0 == k {
      i := 0;
    } else {
      var j := LookupFound(es[1..], k);
      i := j + 1;
    }
  }

  /** `m[k] = v` on a Go map: replaces the entry for `k` in place, or appends one. */
  function Assign<T>(es: seq<(string, T)>, k: string, v: T): (r: seq<(string, T)>)
    ensures Lookup(r, k) == Some(v)
    ensures forall k' :: k' != k ==> Lookup(r, k') == Lookup(es, k')
    ensures Keys(r) == Keys(es) + {k}
    ensures k !in Keys(es) ==> r == es + [(k, v)]
  {
    if es == [] then [(k, v)]
    else if es[0].0 == k then [(k, v)] + es[1..]
    else
      var r := [es[0]] + Assign(es[1..], k, v);
      assert r[1..] == Assign(es[1..], k, v);
      r
  }

  lemma {:induction false} AssignKeepsUnique<T>(es: seq<(string, T)>, k: string, v: T)
    requires UniqueKeys(es)
    ensures UniqueKeys(Assign(es, k, v))
  {
    if es != [] && es[0].0 != k {
      AssignKeepsUnique(es[1..], k, v);
      var t := Assign(es[1..], k, v);
      if es[0].0 in Keys(es[1..]) {
        var j := KeyIndex(es[1..], es[0].0);
        assert false;
      }
      var r := [es[0]] + t;
      assert Assign(es, k, v) == r;
      forall i, j | 0 <= i < j < |r| ensures r[i].0 != r[j].0 {
        if i == 0 { KeysAt(t, j - 1); }
      }
    }
  }
}
