/** What the type-hinted codec promises: the shape of a hinted name, which
    entries are left alone, when a decode fails, what each hint produces, and
    what an encoded item looks like once it is decoded again. */
module CodecProperties {
  import opened Values
  import opened GoStrings
  import opened Codec

  // ---------------------------------------------------------------------------
  // Hinted attribute names

  /** A hinted name is its clean name, `<`, a hint without `<`, and `>`. */
  lemma HintedKeyParts(key: string)
    ensures IsHinted(key) <==> ('<' in key && |key| > 0 && key[|key| - 1] == '>')
    ensures IsHinted(key) ==>
      key == CleanKey(key) + "<" + HintOf(key) + ">" && '<' !in HintOf(key)
  {
    if IsHinted(key) {
      var i := LastIndexOf(key, '<');
      assert i < |key| - 1;
      assert key == key[..i] + "<" + key[i + 1..|key| - 1] + ">";
    }
  }

  /** Conversely, a clean name and a hint without `<` are read back from the
      hinted name built out of them. */
  lemma HintedKeyCompose(clean: string, hint: string)
    requires '<' !in hint
    ensures IsHinted(clean + "<" + hint + ">")
    ensures CleanKey(clean + "<" + hint + ">") == clean
    ensures HintOf(clean + "<" + hint + ">") == hint
  {
    var key := clean + "<" + hint + ">";
    var r := LastIndexOf(key, '<');
    assert key[|clean|] == '<';
    assert r == |clean|;
    assert key[..r] == clean;
    assert key[r + 1..|key| - 1] == hint;
  }

  // ---------------------------------------------------------------------------
  // Unhinted entries

  lemma {:induction false} UnhintedPrefix(data: seq<(string, Value)>, n: nat, lib: Runtime)
    requires n <= |data| && UniqueKeys(data)
    requires forall i :: 0 <= i < |data| ==> !IsHinted(data[i].0)
    ensures ProcessFirst(data, n, lib) == Ok(data[..n])
  {
    if n > 0 {
      UnhintedPrefix(data, n - 1, lib);
      AppendFresh(data, n);
      ProcessFirstUnhinted(data, n, data[..n - 1], lib);
    }
  }

  lemma AppendFresh<T>(data: seq<(string, T)>, n: nat)
    requires 0 < n <= |data| && UniqueKeys(data)
    ensures Assign(data[..n - 1], data[n - 1].0, data[n - 1].1) == data[..n]
  {
    NotEarlier(data, n - 1);
    assert data[..n - 1] + [data[n - 1]] == data[..n];
  }

  lemma NotEarlier<T>(data: seq<(string, T)>, i: nat)
    requires i < |data| && UniqueKeys(data)
    ensures data[i].0 !in Keys(data[..i])
  {
    if data[i].0 in Keys(data[..i]) {
      var j := KeyIndex(data[..i], data[i].0);
      assert false;
    }
  }

  /** One step of the fold over an entry without a hint. */
  lemma ProcessFirstUnhinted(data: seq<(string, Value)>, n: nat, acc: seq<(string, Value)>, lib: Runtime)
    requires 0 < n <= |data| && ProcessFirst(data, n - 1, lib) == Ok(acc) && !IsHinted(data[n - 1].0)
    ensures ProcessFirst(data, n, lib) == Ok(Assign(acc, data[n - 1].0, data[n - 1].1))
  {
  }

  /** Entries whose names carry no hint keep name and value unchanged: nothing
      inside their maps or lists is looked at. */
  lemma UnhintedUnchanged(data: seq<(string, Value)>, lib: Runtime)
    requires UniqueKeys(data)
    requires forall i :: 0 <= i < |data| ==> !IsHinted(data[i].0)
    ensures ProcessTypeHints(data, lib) == Ok(data)
  {
    UnhintedPrefix(data, |data|, lib);
    assert data[..|data|] == data;
  }

  // ---------------------------------------------------------------------------
  // Failure

  /** Entry i passes: it has no hint, or its hint converts its value. */
  predicate Converts(data: seq<(string, Value)>, i: nat, lib: Runtime)
    requires i < |data|
  {
    !IsHinted(data[i].0) || ConvertEntry(data, i, lib).Ok?
  }

  /** The error an entry whose hint fails is reported with. */
  function EntryError(data: seq<(string, Value)>, i: nat, lib: Runtime): DecodeError
    requires i < |data| && !Converts(data, i, lib)
  {
    ConvertEntry(data, i, lib).error
  }

  lemma ProcessFirstOkConverts(data: seq<(string, Value)>, n: nat, lib: Runtime)
    requires n <= |data| && ProcessFirst(data, n, lib).Ok?
    ensures forall i :: 0 <= i < n ==> Converts(data, i, lib)
  {
    forall i | 0 <= i < n ensures Converts(data, i, lib) {
      ProcessFirstOkAt(data, n, i, lib);
    }
  }

  lemma ProcessFirstOkAt(data: seq<(string, Value)>, n: nat, i: nat, lib: Runtime)
    requires i < n <= |data| && ProcessFirst(data, n, lib).Ok?
    ensures Converts(data, i, lib)
  {
    ProcessFirstOkPrefix(data, n, i + 1, lib);
    ProcessFirstOkStep(data, i + 1, lib);
  }

  lemma {:induction false} ProcessFirstOkPrefix(data: seq<(string, Value)>, n: nat, m: nat, lib: Runtime)
    requires m <= n <= |data| && ProcessFirst(data, n, lib).Ok?
    ensures ProcessFirst(data, m, lib).Ok?
    decreases n
  {
    if m < n {
      ProcessFirstOkStep(data, n, lib);
      ProcessFirstOkPrefix(data, n - 1, m, lib);
    }
  }

  lemma ProcessFirstOkStep(data: seq<(string, Value)>, n: nat, lib: Runtime)
    requires 0 < n <= |data| && ProcessFirst(data, n, lib).Ok?
    ensures ProcessFirst(data, n - 1, lib).Ok? && Converts(data, n - 1, lib)
  {
  }

  lemma {:induction false} ConvertsProcessFirstOk(data: seq<(string, Value)>, n: nat, lib: Runtime)
    requires n <= |data| && forall i :: 0 <= i < n ==> Converts(data, i, lib)
    ensures ProcessFirst(data, n, lib).Ok?
  {
    if n > 0 {
      ConvertsProcessFirstOk(data, n - 1, lib);
      assert ProcessFirst(data, n - 1, lib).Ok?;
      assert Converts(data, n - 1, lib);
    }
  }

  lemma {:induction false} ProcessFirstFails(data: seq<(string, Value)>, n: nat, lib: Runtime) returns (i: nat)
    requires n <= |data| && ProcessFirst(data, n, lib).Err?
    ensures i < n && !Converts(data, i, lib)
    ensures forall j :: 0 <= j < i ==> Converts(data, j, lib)
    ensures ProcessFirst(data, n, lib).error == EntryError(data, i, lib)
  {
    if ProcessFirst(data, n - 1, lib).Err? {
      i := ProcessFirstFails(data, n - 1, lib);
    } else {
      ProcessFirstOkConverts(data, n - 1, lib);
      i := n - 1;
    }
  }

  /** A decode succeeds exactly when every hinted entry converts. */
  lemma DecodeSucceeds(data: seq<(string, Value)>, lib: Runtime)
    ensures DecodeEntries(data, lib).Ok? <==> forall i :: 0 <= i < |data| ==> Converts(data, i, lib)
  {
    if DecodeEntries(data, lib).Ok? {
      ProcessFirstOkConverts(data, |data|, lib);
    }
    if forall i :: 0 <= i < |data| ==> Converts(data, i, lib) {
      ConvertsProcessFirstOk(data, |data|, lib);
    }
  }

  /** A failed decode yields no record, only the error of the first entry (in
      iteration order) whose conversion fails. */
  lemma DecodeFails(data: seq<(string, Value)>, lib: Runtime) returns (i: nat)
    requires DecodeEntries(data, lib).Err?
    ensures i < |data| && !Converts(data, i, lib)
    ensures forall j :: 0 <= j < i ==> Converts(data, j, lib)
    ensures DecodeEntries(data, lib).error == EntryError(data, i, lib)
  {
    i := ProcessFirstFails(data, |data|, lib);
  }

  // ---------------------------------------------------------------------------
  // The hints one by one

  const KnownHints: set<string> := {"S", "N", "BOOL", "NULL", "L", "M", "SS", "NS", "B", "BS"}

  /** Hints are compared without regard to case; any other hint, the empty one
      included, is rejected and named in the error. */
  lemma HintNames(v: Value, hint: string, other: string, lib: Runtime)
    ensures ToUpper(hint) == ToUpper(other) && ToUpper(hint) in KnownHints ==>
      ConvertValueWithTypeHint(v, hint, lib) == ConvertValueWithTypeHint(v, other, lib)
    ensures ToUpper(hint) !in KnownHints ==>
      ConvertValueWithTypeHint(v, hint, lib) == Err(UnknownHint(hint))
  {
  }

  /** An object with a single attribute: an unhinted one is kept, a hinted
      one is converted and stored under its clean name, or its failure reported. */
  lemma DecodeSingle(key: string, v: Value, lib: Runtime)
    ensures !IsHinted(key) ==> DecodeEntries([(key, v)], lib) == Ok([(key, ValueToAttr(v, lib))])
    ensures IsHinted(key) && ConvertValueWithTypeHint(v, HintOf(key), lib).Err? ==>
      DecodeEntries([(key, v)], lib)
        == Err(ConvertFailed(CleanKey(key), HintOf(key), ConvertValueWithTypeHint(v, HintOf(key), lib).error))
    ensures IsHinted(key) && ConvertValueWithTypeHint(v, HintOf(key), lib).Ok? ==>
      DecodeEntries([(key, v)], lib)
        == Ok([(CleanKey(key), ValueToAttr(ConvertValueWithTypeHint(v, HintOf(key), lib).value, lib))])
  {
    if IsHinted(key) {
      match ConvertValueWithTypeHint(v, HintOf(key), lib)
      case Err(c) => DecodeSingleFails(key, v, c, lib);
      case Ok(cv) => DecodeSingleConverts(key, v, cv, lib);
    } else {
      var data := [(key, v)];
      assert ProcessFirst(data, 0, lib) == Ok([]);
      assert StoreEntry([], data, 0, lib) == Ok(data);
      assert ProcessTypeHints(data, lib) == Ok(data);
      assert InterfaceToAttributeValue(data, lib) == [(key, ValueToAttr(v, lib))];
    }
  }

  lemma DecodeSingleConverts(key: string, v: Value, cv: Value, lib: Runtime)
    requires IsHinted(key) && ConvertValueWithTypeHint(v, HintOf(key), lib) == Ok(cv)
    ensures DecodeEntries([(key, v)], lib) == Ok([(CleanKey(key), ValueToAttr(cv, lib))])
  {
    var data := [(key, v)];
    assert ProcessFirst(data, 0, lib) == Ok([]);
    assert ConvertEntry(data, 0, lib) == Ok(cv);
    assert StoreEntry([], data, 0, lib) == Ok([(CleanKey(key), cv)]);
    assert ProcessTypeHints(data, lib) == Ok([(CleanKey(key), cv)]);
    assert InterfaceToAttributeValue([(CleanKey(key), cv)], lib) == [(CleanKey(key), ValueToAttr(cv, lib))];
  }

  lemma DecodeSingleFails(key: string, v: Value, c: HintError, lib: Runtime)
    requires IsHinted(key) && ConvertValueWithTypeHint(v, HintOf(key), lib) == Err(c)
    ensures DecodeEntries([(key, v)], lib) == Err(ConvertFailed(CleanKey(key), HintOf(key), c))
  {
    var data := [(key, v)];
    assert ProcessFirst(data, 0, lib) == Ok([]);
    assert ConvertEntry(data, 0, lib) == Err(ConvertFailed(CleanKey(key), HintOf(key), c));
    assert StoreEntry([], data, 0, lib) == Err(ConvertFailed(CleanKey(key), HintOf(key), c));
  }

  /** `{"x<>": v}` names an empty hint, which is unknown. */
  lemma EmptyHintRejected(v: Value, lib: Runtime)
    ensures DecodeEntries([("x<>", v)], lib) == Err(ConvertFailed("x", "", UnknownHint("")))
  {
    HintedKeyCompose("x", "");
    assert "x" + "<" + "" + ">" == "x<>";
    UpperUnchanged("");
    HintNames(v, "", "", lib);
    DecodeSingleFails("x<>", v, UnknownHint(""), lib);
  }

  /** The message a failed conversion is shown with names the clean key, the
      hint and the cause. */
  lemma ConversionErrorText(key: string, hint: string, lib: Runtime)
    ensures DecodeErrorText(ConvertFailed(key, hint, UnknownHint(hint)), lib)
      == "failed to convert " + key + " with type " + hint + ": unknown type hint: " + hint
  {
  }

  /** NULL, S, N and BOOL over the values a JSON object holds, whatever the
      case the hint is written in. */
  lemma ScalarHints(v: Value, hint: string, lib: Runtime)
    ensures ToUpper(hint) == "NULL" ==> ConvertValueWithTypeHint(v, hint, lib) == Ok(VNil)
    ensures ToUpper(hint) == "S" && v.VString? ==> ConvertValueWithTypeHint(v, hint, lib) == Ok(v)
    ensures ToUpper(hint) == "N" && v.VString? ==> ConvertValueWithTypeHint(v, hint, lib) == Ok(VNumber(v.s))
    ensures ToUpper(hint) == "BOOL" && v.VBool? ==> ConvertValueWithTypeHint(v, hint, lib) == Ok(v)
    ensures ToUpper(hint) == "BOOL" && v.VString? ==>
      ConvertValueWithTypeHint(v, hint, lib) == Ok(VBool(ToLower(v.s) == "true"))
    ensures ToUpper(hint) == "BOOL" && !v.VBool? && !v.VString? ==>
      ConvertValueWithTypeHint(v, hint, lib) == Err(NotBoolean(v))
  {
  }

  /** L keeps a list, reads a string as a JSON array or fails, and wraps any
      other value; M fails on anything that is neither a map nor a string. */
  lemma ListAndMapHints(v: Value, hint: string, lib: Runtime)
    ensures ToUpper(hint) == "L" && v.VList? ==> ConvertValueWithTypeHint(v, hint, lib) == Ok(v)
    ensures ToUpper(hint) == "L" && v.VString? && UnmarshalArray(lib, v.s).None? ==>
      ConvertValueWithTypeHint(v, hint, lib) == Err(CannotParseList(lib.jsonError(v.s)))
    ensures ToUpper(hint) == "L" && v.VString? && UnmarshalArray(lib, v.s).Some? ==>
      ConvertValueWithTypeHint(v, hint, lib) == Ok(VList(UnmarshalArray(lib, v.s).value))
    ensures ToUpper(hint) == "L" && !v.VList? && !v.VString? ==>
      ConvertValueWithTypeHint(v, hint, lib) == Ok(VList([v]))
    ensures ToUpper(hint) == "M" && !v.VMap? && !v.VString? ==>
      ConvertValueWithTypeHint(v, hint, lib) == Err(NotAMap(v))
    ensures ToUpper(hint) == "M" && v.VString? && UnmarshalObject(lib, v.s).None? ==>
      ConvertValueWithTypeHint(v, hint, lib) == Err(CannotParseMap(lib.jsonError(v.s)))
  {
  }

  /** An M hint applies the hints inside a map, or inside the object a string
      holds; this is the only way hints nested in a value are looked at. */
  lemma MapHintRecurses(v: Value, hint: string, lib: Runtime)
    ensures ToUpper(hint) == "M" && v.VMap? ==>
      ConvertValueWithTypeHint(v, hint, lib) == HintedMap(ProcessTypeHints(v.entries, lib))
    ensures ToUpper(hint) == "M" && v.VString? && UnmarshalObject(lib, v.s).Some? ==>
      ConvertValueWithTypeHint(v, hint, lib) == HintedMap(ProcessTypeHints(UnmarshalObject(lib, v.s).value, lib))
  {
  }

  /** SS, NS and BS have one member per element of a list, or of the JSON
      array a string holds, in order; a string that is not a JSON array, and
      any scalar, gives a single member. */
  lemma SetHints(v: Value, lib: Runtime)
    ensures v.VList? ==>
      (|SetMembers(v, lib)| == |v.elems| == |BinaryMembers(v, lib)|
       && (forall i :: 0 <= i < |v.elems| ==> SetMembers(v, lib)[i] == Show(v.elems[i], lib))
       && (forall i :: 0 <= i < |v.elems| ==> BinaryMembers(v, lib)[i] == MemberBytes(v.elems[i], lib)))
    ensures v.VString? && UnmarshalArray(lib, v.s).Some? ==>
      (var xs := UnmarshalArray(lib, v.s).value;
       |SetMembers(v, lib)| == |xs| == |BinaryMembers(v, lib)|
       && (forall i :: 0 <= i < |xs| ==> SetMembers(v, lib)[i] == Show(xs[i], lib))
       && (forall i :: 0 <= i < |xs| ==> BinaryMembers(v, lib)[i] == MemberBytes(xs[i], lib)))
    ensures v.VString? && UnmarshalArray(lib, v.s).None? ==>
      SetMembers(v, lib) == [v.s] && BinaryMembers(v, lib) == [BytesOf(v.s)]
    ensures !v.VList? && !v.VString? ==>
      SetMembers(v, lib) == [Show(v, lib)] && BinaryMembers(v, lib) == [BytesOf(Show(v, lib))]
  {
  }

  lemma MarkerLookup(tag: string, payload: Value, k: string)
    ensures Lookup([(tag, payload)], k) == if k == tag then Some(payload) else None
  {
    assert [(tag, payload)][1..] == [];
  }

  /** The marker a set hint leaves becomes the set attribute it stands for. */
  lemma SetMarkersBecomeSets(v: Value, hint: string, lib: Runtime)
    ensures ToUpper(hint) == "SS" ==>
      ValueToAttr(ConvertValueWithTypeHint(v, hint, lib).value, lib) == SS(SetMembers(v, lib))
    ensures ToUpper(hint) == "NS" ==>
      ValueToAttr(ConvertValueWithTypeHint(v, hint, lib).value, lib) == NS(SetMembers(v, lib))
    ensures ToUpper(hint) == "BS" ==>
      ValueToAttr(ConvertValueWithTypeHint(v, hint, lib).value, lib) == BS(BinaryMembers(v, lib))
  {
    if ToUpper(hint) == "SS" {
      StringSetMarker(v, hint, lib);
    } else if ToUpper(hint) == "NS" {
      NumberSetMarker(v, hint, lib);
    } else if ToUpper(hint) == "BS" {
      BinarySetMarker(v, hint, lib);
    }
  }

  lemma StringSetMarker(v: Value, hint: string, lib: Runtime)
    requires ToUpper(hint) == "SS"
    ensures ValueToAttr(ConvertValueWithTypeHint(v, hint, lib).value, lib) == SS(SetMembers(v, lib))
  {
    var ss := VStrings(SetMembers(v, lib));
    assert ConvertValueWithTypeHint(v, hint, lib) == Ok(VMap([("__SS", ss)]));
    MarkerLookup("__SS", ss, "__SS");
  }

  lemma NumberSetMarker(v: Value, hint: string, lib: Runtime)
    requires ToUpper(hint) == "NS"
    ensures ValueToAttr(ConvertValueWithTypeHint(v, hint, lib).value, lib) == NS(SetMembers(v, lib))
  {
    var ns := VStrings(SetMembers(v, lib));
    assert ConvertValueWithTypeHint(v, hint, lib) == Ok(VMap([("__NS", ns)]));
    MarkerLookup("__NS", ns, "__SS");
    MarkerLookup("__NS", ns, "__NS");
  }

  lemma BinarySetMarker(v: Value, hint: string, lib: Runtime)
    requires ToUpper(hint) == "BS"
    ensures ValueToAttr(ConvertValueWithTypeHint(v, hint, lib).value, lib) == BS(BinaryMembers(v, lib))
  {
    var bs := VByteSlices(BinaryMembers(v, lib));
    assert ConvertValueWithTypeHint(v, hint, lib) == Ok(VMap([("__BS", bs)]));
    MarkerLookup("__BS", bs, "__SS");
    MarkerLookup("__BS", bs, "__NS");
    MarkerLookup("__BS", bs, "__BS");
  }

  /** An N hint on any name turns a string into the number it spells. */
  lemma NumberHintDecodes(clean: string, t: string, lib: Runtime)
    ensures DecodeEntries([(clean + "<N>", VString(t))], lib) == Ok([(clean, N(t))])
  {
    HintedKeyCompose(clean, "N");
    assert clean + "<" + "N" + ">" == clean + "<N>";
    UpperUnchanged("N");
    ScalarHints(VString(t), "N", lib);
    DecodeSingleConverts(clean + "<N>", VString(t), VNumber(t), lib);
  }

  /** `{"age<N>": "5"}` is the item with the number attribute age = 5. */
  lemma NumberHintExample(lib: Runtime)
    ensures DecodeEntries([("age<N>", VString("5"))], lib) == Ok([("age", N("5"))])
  {
    NumberHintDecodes("age", "5", lib);
    assert "age" + "<N>" == "age<N>";
  }

  /** `{"x<ZZZ>": 1}` is rejected with an unknown-hint error. */
  lemma UnknownHintExample(lib: Runtime)
    ensures DecodeEntries([("x<ZZZ>", VFloat("1"))], lib) == Err(ConvertFailed("x", "ZZZ", UnknownHint("ZZZ")))
  {
    HintedKeyCompose("x", "ZZZ");
    assert "x" + "<" + "ZZZ" + ">" == "x<ZZZ>";
    UpperUnchanged("ZZZ");
    HintNames(VFloat("1"), "ZZZ", "ZZZ", lib);
    DecodeSingleFails("x<ZZZ>", VFloat("1"), UnknownHint("ZZZ"), lib);
  }

  /** Only the last `<...>` is a hint: `a<S><N>` stores a number under `a<S>`. */
  lemma DoubleHintKeepsSuffix(lib: Runtime)
    ensures DecodeEntries([("a<S><N>", VString("1"))], lib) == Ok([("a<S>", N("1"))])
    ensures IsHinted("a<S>")
  {
    NumberHintDecodes("a<S>", "1", lib);
    assert "a<S>" + "<N>" == "a<S><N>";
    InnerHintStays();
  }

  lemma InnerHintStays()
    ensures IsHinted("a<S>")
  {
    assert "a<S>"[1] == '<';
  }

  /** A B hint takes the bytes of the text as written; it does not decode base64. */
  lemma BinaryHint(v: Value, hint: string, lib: Runtime)
    ensures ToUpper(hint) == "B" && v.VString? ==> ConvertValueWithTypeHint(v, hint, lib) == Ok(VBytes(BytesOf(v.s)))
    ensures ToUpper(hint) == "B" && v.VBytes? ==> ConvertValueWithTypeHint(v, hint, lib) == Ok(v)
  {
  }

  // ---------------------------------------------------------------------------
  // Encoding, then decoding

  /** Every map inside the value has distinct attribute names. */
  predicate Distinct(a: AttrValue)
    decreases a
  {
    match a
    case L(xs) => forall i :: 0 <= i < |xs| ==> Distinct(xs[i])
    case M(es) => UniqueKeys(es) && forall i :: 0 <= i < |es| ==> Distinct(es[i].1)
    case _ => true
  }

  /** The value is built from S, BOOL, NULL, L and M only. */
  predicate Plain(a: AttrValue)
    decreases a
  {
    match a
    case S(_) => true
    case BOOL(_) => true
    case NULL => true
    case L(xs) => forall i :: 0 <= i < |xs| ==> Plain(xs[i])
    case M(es) => forall i :: 0 <= i < |es| ==> Plain(es[i].1)
    case _ => false
  }

  /** What an attribute value comes back as once its item is encoded and the
      text decoded again: numbers are re-read as floats and printed with %v,
      every set comes back as a list of strings, binary as its base64 text. */
  function Reread(a: AttrValue, lib: Runtime): AttrValue
    decreases a
  {
    match a
    case S(_) => a
    case BOOL(_) => a
    case NULL => a
    case N(t) => N(lib.formatOther(VFloat(t)))
    case L(xs) => L(seq(|xs|, i requires 0 <= i < |xs| => Reread(xs[i], lib)))
    case M(es) => M(seq(|es|, i requires 0 <= i < |es| => (es[i].0, Reread(es[i].1, lib))))
    case SS(ss) => L(seq(|ss|, i requires 0 <= i < |ss| => S(ss[i])))
    case NS(ns) => L(seq(|ns|, i requires 0 <= i < |ns| => S(ns[i])))
    case B(b) => S(lib.base64(b))
    case BS(bs) => L(seq(|bs|, i requires 0 <= i < |bs| => S(lib.base64(bs[i]))))
  }

  /** The members of a JSON object, each read as json.Unmarshal reads it. */
  function ReadMembers(ms: seq<(string, Json)>): (r: seq<(string, Value)>)
    ensures |r| == |ms| && forall i :: 0 <= i < |ms| ==> r[i] == (ms[i].0, FromJson(ms[i].1))
  {
    if ms == [] then [] else ReadMembers(ms[..|ms| - 1]) + [(ms[|ms| - 1].0, FromJson(ms[|ms| - 1].1))]
  }

  /** Reading an object whose names are distinct keeps every member, in order. */
  lemma {:induction false} FromMembersDistinct(obj: Json, n: nat)
    requires obj.JObject? && n <= |obj.members| && UniqueKeys(obj.members)
    ensures FromMembers(obj, n) == ReadMembers(obj.members[..n])
  {
    if n > 0 {
      FromMembersDistinct(obj, n - 1);
      var ms := obj.members;
      var prev := FromMembers(obj, n - 1);
      assert ms[..n][..n - 1] == ms[..n - 1];
      if ms[n - 1].0 in Keys(prev) {
        var j := KeyIndex(prev, ms[n - 1].0);
        assert false;
      }
    }
  }

  predicate NoSetPayload(es: seq<(string, Value)>) {
    forall i :: 0 <= i < |es| ==> !es[i].1.VStrings? && !es[i].1.VByteSlices?
  }

  lemma NoSetPayloadNoMarker(es: seq<(string, Value)>)
    requires NoSetPayload(es)
    ensures SetMarker(es) == None
  {
    if Lookup(es, "__SS").Some? {
      var i := LookupFound(es, "__SS");
    }
    if Lookup(es, "__NS").Some? {
      var i := LookupFound(es, "__NS");
    }
    if Lookup(es, "__BS").Some? {
      var i := LookupFound(es, "__BS");
    }
  }

  /** An attribute value after it is encoded and the JSON read back, before
      any hint is looked at. */
  function Cycle(a: AttrValue, lib: Runtime): AttrValue {
    ValueToAttr(FromJson(Marshal(AttrToInterface(a), lib)), lib)
  }

  lemma CycleList(xs: seq<AttrValue>, lib: Runtime)
    requires forall i :: 0 <= i < |xs| ==> Cycle(xs[i], lib) == Reread(xs[i], lib)
    ensures Cycle(L(xs), lib) == Reread(L(xs), lib)
  {
    var vs := FromJson(Marshal(AttrToInterface(L(xs)), lib)).elems;
    assert |vs| == |xs|;
    assert forall i :: 0 <= i < |xs| ==> vs[i] == FromJson(Marshal(AttrToInterface(xs[i]), lib));
    var r := Cycle(L(xs), lib).l;
    assert |r| == |xs| && forall i :: 0 <= i < |xs| ==> r[i] == Reread(xs[i], lib);
  }

  /** json.Marshal writes a map's entries in order, each under its name. */
  lemma MarshalMap(es: seq<(string, AttrValue)>, lib: Runtime) returns (ms: seq<(string, Json)>)
    ensures Marshal(AttrToInterface(M(es)), lib) == JObject(ms)
    ensures |ms| == |es| && forall i :: 0 <= i < |es| ==> ms[i] == (es[i].0, Marshal(AttrToInterface(es[i].1), lib))
  {
    ms := Marshal(AttrToInterface(M(es)), lib).members;
  }

  /** Reading an object with distinct names back gives its members in order. */
  lemma ReadObject(ms: seq<(string, Json)>)
    requires UniqueKeys(ms)
    ensures FromJson(JObject(ms)) == VMap(ReadMembers(ms))
  {
    FromMembersDistinct(JObject(ms), |ms|);
    assert ms[..|ms|] == ms;
  }

  /** A map that holds no set payload becomes an M attribute, entry by entry. */
  lemma PlainMapToAttr(ents: seq<(string, Value)>, lib: Runtime)
    requires NoSetPayload(ents)
    ensures ValueToAttr(VMap(ents), lib).M?
    ensures |ValueToAttr(VMap(ents), lib).m| == |ents|
    ensures forall i :: 0 <= i < |ents| ==> ValueToAttr(VMap(ents), lib).m[i] == (ents[i].0, ValueToAttr(ents[i].1, lib))
  {
    NoSetPayloadNoMarker(ents);
  }

  lemma SameNames<T, U>(es: seq<(string, T)>, ms: seq<(string, U)>)
    requires UniqueKeys(es)
    requires |ms| == |es| && forall i :: 0 <= i < |es| ==> ms[i].0 == es[i].0
    ensures UniqueKeys(ms)
  {
  }

  /** json.Unmarshal never produces a []string or a [][]byte. */
  lemma ReadHasNoSetPayload(ms: seq<(string, Json)>)
    ensures NoSetPayload(ReadMembers(ms))
  {
  }

  lemma CycleMapSteps(es: seq<(string, AttrValue)>, ms: seq<(string, Json)>, lib: Runtime)
    requires Marshal(AttrToInterface(M(es)), lib) == JObject(ms)
    requires FromJson(JObject(ms)) == VMap(ReadMembers(ms))
    ensures Cycle(M(es), lib) == ValueToAttr(VMap(ReadMembers(ms)), lib)
  {
  }

  lemma CycleMapEntries(es: seq<(string, AttrValue)>, ms: seq<(string, Json)>, lib: Runtime)
    requires |ms| == |es| && forall i :: 0 <= i < |es| ==> ms[i] == (es[i].0, Marshal(AttrToInterface(es[i].1), lib))
    requires forall i :: 0 <= i < |es| ==> Cycle(es[i].1, lib) == Reread(es[i].1, lib)
    ensures forall i :: 0 <= i < |es| ==>
      (ReadMembers(ms)[i].0, ValueToAttr(ReadMembers(ms)[i].1, lib)) == (es[i].0, Reread(es[i].1, lib))
  {
  }

  lemma RereadMap(es: seq<(string, AttrValue)>, r: seq<(string, AttrValue)>, lib: Runtime)
    requires |r| == |es| && forall i :: 0 <= i < |es| ==> r[i] == (es[i].0, Reread(es[i].1, lib))
    ensures M(r) == Reread(M(es), lib)
  {
  }

  lemma CycleMap(es: seq<(string, AttrValue)>, lib: Runtime)
    requires UniqueKeys(es)
    requires forall i :: 0 <= i < |es| ==> Cycle(es[i].1, lib) == Reread(es[i].1, lib)
    ensures Cycle(M(es), lib) == Reread(M(es), lib)
  {
    var ms := MarshalMap(es, lib);
    SameNames(es, ms);
    ReadObject(ms);
    ReadHasNoSetPayload(ms);
    PlainMapToAttr(ReadMembers(ms), lib);
    CycleMapSteps(es, ms, lib);
    CycleMapEntries(es, ms, lib);
    RereadMap(es, ValueToAttr(VMap(ReadMembers(ms)), lib).m, lib);
  }

  /** SS and NS members go out as a JSON array of strings and come back as a list of S. */
  lemma CycleStrings(a: AttrValue, ms: seq<string>, lib: Runtime)
    requires a == SS(ms) || a == NS(ms)
    ensures Cycle(a, lib) == L(seq(|ms|, i requires 0 <= i < |ms| => S(ms[i])))
  {
    assert AttrToInterface(a) == VStrings(ms);
    var js := Marshal(VStrings(ms), lib).elems;
    assert |js| == |ms| && forall i :: 0 <= i < |ms| ==> js[i] == JString(ms[i]);
    var vs := FromJson(JArray(js)).elems;
    forall i | 0 <= i < |ms| ensures vs[i] == VString(ms[i]) {
      assert vs[i] == FromJson(JString(ms[i]));
    }
    var r := ValueToAttr(VList(vs), lib).l;
    forall i | 0 <= i < |ms| ensures r[i] == S(ms[i]) {
      assert r[i] == ValueToAttr(VString(ms[i]), lib);
    }
  }

  lemma CycleBinarySet(bs: seq<Bytes>, lib: Runtime)
    ensures Cycle(BS(bs), lib) == L(seq(|bs|, i requires 0 <= i < |bs| => S(lib.base64(bs[i]))))
  {
    var js := Marshal(VByteSlices(bs), lib).elems;
    assert |js| == |bs| && forall i :: 0 <= i < |bs| ==> js[i] == JString(lib.base64(bs[i]));
    var vs := FromJson(JArray(js)).elems;
    forall i | 0 <= i < |bs| ensures vs[i] == VString(lib.base64(bs[i])) {
      assert vs[i] == FromJson(JString(lib.base64(bs[i])));
    }
    var r := ValueToAttr(VList(vs), lib).l;
    forall i | 0 <= i < |bs| ensures r[i] == S(lib.base64(bs[i])) {
      assert r[i] == ValueToAttr(VString(lib.base64(bs[i])), lib);
    }
  }

  lemma {:induction false} RereadAttr(a: AttrValue, lib: Runtime)
    requires Distinct(a)
    ensures Cycle(a, lib) == Reread(a, lib)
    decreases a
  {
    match a
    case L(xs) =>
      forall i | 0 <= i < |xs| {
        RereadAttr(xs[i], lib);
      }
      CycleList(xs, lib);
    case M(es) =>
      forall i | 0 <= i < |es| {
        RereadAttr(es[i].1, lib);
      }
      CycleMap(es, lib);
    case SS(ss) => CycleStrings(a, ss, lib);
    case NS(ns) => CycleStrings(a, ns, lib);
    case BS(bs) => CycleBinarySet(bs, lib);
    case _ =>
  }

  lemma {:induction false} RereadPlain(a: AttrValue, lib: Runtime)
    requires Plain(a)
    ensures Reread(a, lib) == a
    decreases a
  {
    match a
    case L(xs) =>
      forall i | 0 <= i < |xs| {
        RereadPlain(xs[i], lib);
      }
    case M(es) =>
      forall i | 0 <= i < |es| {
        RereadPlain(es[i].1, lib);
      }
    case _ =>
  }

  lemma ReadText(text: string, ms: seq<(string, Json)>, lib: Runtime)
    requires lib.parseJson(text) == Some(JObject(ms))
    requires FromJson(JObject(ms)) == VMap(ReadMembers(ms))
    ensures UnmarshalObject(lib, text) == Some(ReadMembers(ms))
  {
  }

  lemma DecodeRead(item: Item, ms: seq<(string, Json)>, lib: Runtime)
    requires |ms| == |item|
    requires forall i :: 0 <= i < |item| ==> ms[i] == (item[i].0, Marshal(AttrToInterface(item[i].1), lib))
    requires ProcessTypeHints(ReadMembers(ms), lib) == Ok(ReadMembers(ms))
    requires forall i :: 0 <= i < |item| ==> Cycle(item[i].1, lib) == Reread(item[i].1, lib)
    ensures DecodeEntries(ReadMembers(ms), lib)
      == Ok(seq(|item|, i requires 0 <= i < |item| => (item[i].0, Reread(item[i].1, lib))))
  {
    var data := ReadMembers(ms);
    assert forall i :: 0 <= i < |item| ==> data[i] == (item[i].0, FromJson(Marshal(AttrToInterface(item[i].1), lib)));
    assert DecodeEntries(data, lib) == Ok(InterfaceToAttributeValue(data, lib));
    var r := InterfaceToAttributeValue(data, lib);
    forall i | 0 <= i < |item| ensures r[i] == (item[i].0, Reread(item[i].1, lib)) {
      assert r[i] == (item[i].0, ValueToAttr(FromJson(Marshal(AttrToInterface(item[i].1), lib)), lib));
      assert Cycle(item[i].1, lib) == Reread(item[i].1, lib);
    }
    assert r == seq(|item|, i requires 0 <= i < |item| => (item[i].0, Reread(item[i].1, lib)));
  }

  /** Decoding the encoding of an item whose top-level names carry no hint gives
      every attribute back under its name, changed only as `Reread` says. */
  lemma EncodeThenDecode(item: Item, text: string, lib: Runtime)
    requires UniqueKeys(item)
    requires forall i :: 0 <= i < |item| ==> Distinct(item[i].1) && !IsHinted(item[i].0)
    requires lib.parseJson(text) == Some(ItemToJson(item, lib))
    ensures JSONToItem(text, lib)
      == Ok(seq(|item|, i requires 0 <= i < |item| => (item[i].0, Reread(item[i].1, lib))))
  {
    var ms := MarshalMap(item, lib);
    SameNames(item, ms);
    ReadObject(ms);
    ReadText(text, ms, lib);
    var data := ReadMembers(ms);
    SameNames(ms, data);
    assert forall i :: 0 <= i < |data| ==> data[i].0 == item[i].0;
    UnhintedUnchanged(data, lib);
    forall i | 0 <= i < |item| {
      RereadAttr(item[i].1, lib);
    }
    DecodeRead(item, ms, lib);
  }

  /** Records built from S, BOOL, NULL, L and M with distinct names and no hint
      on a top-level name survive encoding and decoding unchanged. */
  lemma RoundTrip(item: Item, text: string, lib: Runtime)
    requires UniqueKeys(item)
    requires forall i :: 0 <= i < |item| ==> Plain(item[i].1) && Distinct(item[i].1) && !IsHinted(item[i].0)
    requires lib.parseJson(text) == Some(ItemToJson(item, lib))
    ensures JSONToItem(text, lib) == Ok(item)
  {
    EncodeThenDecode(item, text, lib);
    forall i | 0 <= i < |item| {
      RereadPlain(item[i].1, lib);
    }
    assert seq(|item|, i requires 0 <= i < |item| => (item[i].0, Reread(item[i].1, lib))) == item;
  }

  /** Binary does not survive: it comes back as the string of its base64 text. */
  lemma BinaryComesBackAsText(name: string, b: Bytes, text: string, lib: Runtime)
    requires !IsHinted(name)
    requires lib.parseJson(text) == Some(ItemToJson([(name, B(b))], lib))
    ensures JSONToItem(text, lib) == Ok([(name, S(lib.base64(b)))])
  {
    EncodeThenDecode([(name, B(b))], text, lib);
    assert seq(1, i requires 0 <= i < 1 => ([(name, B(b))][i].0, Reread([(name, B(b))][i].1, lib)))
      == [(name, S(lib.base64(b)))];
  }

  /** A string set comes back as a list of strings. */
  lemma StringSetComesBackAsList(name: string, ss: seq<string>, text: string, lib: Runtime)
    requires !IsHinted(name)
    requires lib.parseJson(text) == Some(ItemToJson([(name, SS(ss))], lib))
    ensures JSONToItem(text, lib) == Ok([(name, L(seq(|ss|, i requires 0 <= i < |ss| => S(ss[i]))))])
  {
    EncodeThenDecode([(name, SS(ss))], text, lib);
    assert seq(1, i requires 0 <= i < 1 => ([(name, SS(ss))][i].0, Reread([(name, SS(ss))][i].1, lib)))
      == [(name, L(seq(|ss|, i requires 0 <= i < |ss| => S(ss[i]))))];
  }

  // ---------------------------------------------------------------------------
  // The type-only view

  /** The DynamoDB type descriptor of a value. */
  function TypeName(a: AttrValue): string {
    match a
    case S(_) => "S"
    case N(_) => "N"
    case BOOL(_) => "BOOL"
    case NULL => "NULL"
    case L(_) => "L"
    case M(_) => "M"
    case SS(_) => "SS"
    case NS(_) => "NS"
    case B(_) => "B"
    case BS(_) => "BS"
  }

  /** The type a node of the type view names: a string, or its `type` member. */
  function TypeTag(j: Json): Option<string> {
    match j
    case JString(s) => Some(s)
    case JObject(ms) =>
      var t := Lookup(ms, "type");
      if t.Some? && t.value.JString? then Some(t.value.s) else None
    case _ => None
  }

  /** The type view names the type of every value, and of every element of a
      list and every attribute of a map, at the same positions. */
  lemma {:induction false} TypeViewNamesTypes(a: AttrValue)
    ensures TypeTag(AttrToType(a)) == Some(TypeName(a))
    ensures a.L? ==>
      (var e := Lookup(AttrToType(a).members, "elements");
       e.Some? && e.value.JArray? && |e.value.elems| == |a.l|
       && forall i :: 0 <= i < |a.l| ==> TypeTag(e.value.elems[i]) == Some(TypeName(a.l[i])))
    ensures a.M? ==>
      (var e := Lookup(AttrToType(a).members, "attributes");
       e.Some? && e.value.JObject? && |e.value.members| == |a.m|
       && forall i :: 0 <= i < |a.m| ==>
            e.value.members[i].0 == a.m[i].0 && TypeTag(e.value.members[i].1) == Some(TypeName(a.m[i].1)))
    decreases a
  {
    match a
    case L(xs) =>
      var es := seq(|xs|, i requires 0 <= i < |xs| => AttrToType(xs[i]));
      var ms := [("elements", JArray(es)), ("type", JString("L"))];
      assert AttrToType(a) == JObject(ms);
      assert "elements"[0] != "type"[0];
      assert Lookup(ms, "type") == Some(JString("L"));
      assert Lookup(ms, "elements") == Some(JArray(es));
      forall i | 0 <= i < |xs| ensures TypeTag(es[i]) == Some(TypeName(xs[i])) {
        TypeViewNamesTypes(xs[i]);
      }
    case M(es) =>
      var ts := seq(|es|, i requires 0 <= i < |es| => (es[i].0, AttrToType(es[i].1)));
      var ms := [("attributes", JObject(ts)), ("type", JString("M"))];
      assert AttrToType(a) == JObject(ms);
      assert "attributes"[0] != "type"[0];
      assert Lookup(ms, "type") == Some(JString("M"));
      assert Lookup(ms, "attributes") == Some(JObject(ts));
      forall i | 0 <= i < |es| ensures TypeTag(ts[i].1) == Some(TypeName(es[i].1)) {
        TypeViewNamesTypes(es[i].1);
      }
    case _ =>
  }
}
