/** The type-hinted value codec of db.go: JSON tree to DynamoDB item (decoding,
    with `<TYPE>` hints on attribute names) and DynamoDB item to JSON tree
    (encoding), plus the type-only view of an item. */
module Codec {
  import opened Values
  import opened GoStrings

  /** Library behaviour the codec relies on and this model leaves abstract. */
  datatype Library = Library(
    parseJson: string -> Option<Json>,   // how encoding/json reads a text; None is a syntax error
    jsonError: string -> string,         // the text of the error json.Unmarshal reports for a text
    formatOther: Value -> string,        // fmt.Sprintf("%v", v) for floats, slices and maps
    base64: Bytes -> string)             // how encoding/json writes a []byte

  /** A JSON text is longer than the `Size` of the object it holds. This is what
      makes the M hint's descent through JSON held in strings terminate. */
  ghost predicate ParsedObjectsShrink(lib: Library) {
    forall s :: ShrinksAt(lib, s)
  }

  ghost predicate ShrinksAt(lib: Library, s: string) {
    UnmarshalObject(lib, s).Some? ==> Size(VMap(UnmarshalObject(lib, s).value)) < |s|
  }

  type Runtime = lib: Library | ParsedObjectsShrink(lib)
    witness Library(_ => None, _ => "", _ => "", _ => "")

  // ---------------------------------------------------------------------------
  // Termination measure

  /** Counts string lengths and map nesting; other values weigh 1. */
  function Size(v: Value): nat
    decreases v
  {
    match v
    case VString(s) => |s|
    case VMap(es) => 1 + SizeOfFirst(v, |es|)
    case _ => 1
  }

  function SizeOfFirst(m: Value, n: nat): nat
    requires m.VMap? && n <= |m.entries|
    decreases m, n
  {
    if n == 0 then 0 else SizeOfFirst(m, n - 1) + Size(m.entries[n - 1].1) + 1
  }

  lemma {:induction false} EntrySmaller(m: Value, n: nat, i: nat)
    requires m.VMap? && i < n <= |m.entries|
    ensures Size(m.entries[i].1) < SizeOfFirst(m, n)
    decreases n
  {
    if i < n - 1 { EntrySmaller(m, n - 1, i); }
  }

  // ---------------------------------------------------------------------------
  // json.Unmarshal into Go values

  /** The Go value json.Unmarshal produces for a JSON tree when decoding into
      `any`: numbers become float64, a repeated object key keeps its last value. */
  function FromJson(j: Json): Value
    decreases j
  {
    match j
    case JNull => VNil
    case JBool(b) => VBool(b)
    case JNumber(t) => VFloat(t)
    case JString(s) => VString(s)
    case JArray(xs) => VList(seq(|xs|, i requires 0 <= i < |xs| => FromJson(xs[i])))
    case JObject(ms) => VMap(FromMembers(j, |ms|))
  }

  function FromMembers(obj: Json, n: nat): seq<(string, Value)>
    requires obj.JObject? && n <= |obj.members|
    decreases obj, n
  {
    if n == 0 then []
    else Assign(FromMembers(obj, n - 1), obj.members[n - 1].0, FromJson(obj.members[n - 1].1))
  }

  /** json.Unmarshal of a text into a `[]any`; the text `null` gives a nil slice. */
  function UnmarshalArray(lib: Library, s: string): Option<seq<Value>> {
    match lib.parseJson(s)
    case Some(JArray(xs)) => Some(FromJson(JArray(xs)).elems)
    case Some(JNull) => Some([])
    case _ => None
  }

  /** json.Unmarshal of a text into a `map[string]any`; the text `null` gives a nil map. */
  function UnmarshalObject(lib: Library, s: string): Option<seq<(string, Value)>> {
    match lib.parseJson(s)
    case Some(JObject(ms)) => Some(FromJson(JObject(ms)).entries)
    case Some(JNull) => Some([])
    case _ => None
  }

  /** fmt.Sprintf("%v", v). */
  function Show(v: Value, lib: Runtime): string {
    match v
    case VString(s) => s
    case VNumber(t) => t
    case VBool(b) => if b then "true" else "false"
    case VNil => "<nil>"
    case _ => lib.formatOther(v)
  }

  /** []byte(s). */
  function BytesOf(s: string): Bytes {
    seq(|s|, i requires 0 <= i < |s| => (s[i] as int) % 256)
  }

  // ---------------------------------------------------------------------------
  // Type hints

  datatype HintError =
    | UnknownHint(hint: string)
    | NotBoolean(v: Value)
    | CannotParseList(detail: string)
    | CannotParseMap(detail: string)
    | NotAMap(v: Value)
    | InMap(inner: DecodeError)          // the nested processTypeHints of an M hint failed

  datatype DecodeError =
    | InvalidJson(detail: string)
    | ConvertFailed(key: string, hint: string, cause: HintError)

  function HintErrorText(e: HintError, lib: Runtime): string {
    match e
    case UnknownHint(h) => "unknown type hint: " + h
    case NotBoolean(v) => "cannot convert " + Show(v, lib) + " to boolean"
    case CannotParseList(d) => "cannot parse list: " + d
    case CannotParseMap(d) => "cannot parse map: " + d
    case NotAMap(v) => "cannot convert " + Show(v, lib) + " to map"
    case InMap(inner) => DecodeErrorText(inner, lib)
  }

  function DecodeErrorText(e: DecodeError, lib: Runtime): string {
    match e
    case InvalidJson(d) => "invalid JSON: " + d
    case ConvertFailed(k, h, c) => "failed to convert " + k + " with type " + h + ": " + HintErrorText(c, lib)
  }

  /** An attribute name carries a hint when it contains `<` and ends with `>`. */
  predicate IsHinted(key: string) {
    LastIndexOf(key, '<') != -1 && |key| > 0 && key[|key| - 1] == '>'
  }

  /** The text between the last `<` and the final `>`. */
  function HintOf(key: string): string
    requires IsHinted(key)
  {
    key[LastIndexOf(key, '<') + 1..|key| - 1]
  }

  /** The name before the last `<`. */
  function CleanKey(key: string): string
    requires IsHinted(key)
  {
    key[..LastIndexOf(key, '<')]
  }

  /** The single-entry map `{tag: payload}` that marks a set for valueToAttr. */
  function Marker(tag: string, payload: Value): Value {
    VMap([(tag, payload)])
  }

  function ToNumber(v: Value, lib: Runtime): Value {
    match v
    case VNumber(_) => v
    case VFloat(_) => v
    case VString(s) => VNumber(s)
    case _ => VNumber(Show(v, lib))
  }

  function ToBool(v: Value): Result<Value, HintError> {
    match v
    case VBool(_) => Ok(v)
    case VString(s) => Ok(VBool(ToLower(s) == "true"))
    case _ => Err(NotBoolean(v))
  }

  function ToList(v: Value, lib: Runtime): Result<Value, HintError> {
    match v
    case VList(_) => Ok(v)
    case VString(s) =>
      (match UnmarshalArray(lib, s)
       case None => Err(CannotParseList(lib.jsonError(s)))
       case Some(xs) => Ok(VList(xs)))
    case _ => Ok(VList([v]))
  }

  function ToBytes(v: Value, lib: Runtime): Value {
    match v
    case VBytes(_) => v
    case VString(s) => VBytes(BytesOf(s))
    case _ => VBytes(BytesOf(Show(v, lib)))
  }

  /** The members of an SS or NS hint, each formatted with %v. */
  function SetMembers(v: Value, lib: Runtime): seq<string> {
    match v
    case VList(xs) => seq(|xs|, i requires 0 <= i < |xs| => Show(xs[i], lib))
    case VString(s) =>
      (match UnmarshalArray(lib, s)
       case None => [s]
       case Some(xs) => seq(|xs|, i requires 0 <= i < |xs| => Show(xs[i], lib)))
    case _ => [Show(v, lib)]
  }

  function MemberBytes(v: Value, lib: Runtime): Bytes {
    if v.VBytes? then v.bytes else BytesOf(Show(v, lib))
  }

  /** The members of a BS hint. */
  function BinaryMembers(v: Value, lib: Runtime): seq<Bytes> {
    match v
    case VList(xs) => seq(|xs|, i requires 0 <= i < |xs| => MemberBytes(xs[i], lib))
    case VString(s) =>
      (match UnmarshalArray(lib, s)
       case None => [BytesOf(s)]
       case Some(xs) => seq(|xs|, i requires 0 <= i < |xs| => MemberBytes(xs[i], lib)))
    case _ => [BytesOf(Show(v, lib))]
  }

  /** convertValueWithTypeHint: the hint name is compared case-insensitively. */
  function ConvertValueWithTypeHint(v: Value, hint: string, lib: Runtime): Result<Value, HintError>
    decreases Size(v), 1
  {
    var h := ToUpper(hint);
    if h == "S" then Ok(VString(Show(v, lib)))
    else if h == "N" then Ok(ToNumber(v, lib))
    else if h == "BOOL" then ToBool(v)
    else if h == "NULL" then Ok(VNil)
    else if h == "L" then ToList(v, lib)
    else if h == "M" then
      match v
      case VMap(es) => HintedMap(ProcessFirst(es, |es|, lib))
      case VString(s) =>
        assert ShrinksAt(lib, s);
        (match UnmarshalObject(lib, s)
         case None => Err(CannotParseMap(lib.jsonError(s)))
         case Some(es) => HintedMap(ProcessFirst(es, |es|, lib)))
      case _ => Err(NotAMap(v))
    else if h == "SS" then Ok(Marker("__SS", VStrings(SetMembers(v, lib))))
    else if h == "NS" then Ok(Marker("__NS", VStrings(SetMembers(v, lib))))
    else if h == "B" then Ok(ToBytes(v, lib))
    else if h == "BS" then Ok(Marker("__BS", VByteSlices(BinaryMembers(v, lib))))
    else Err(UnknownHint(hint))
  }

  function HintedMap(r: Result<seq<(string, Value)>, DecodeError>): Result<Value, HintError> {
    match r
    case Ok(es) => Ok(VMap(es))
    case Err(e) => Err(InMap(e))
  }

  /** The conversion of entry i of a map whose name carries a hint; a failure
      is reported under the clean name and the hint. */
  function ConvertEntry(data: seq<(string, Value)>, i: nat, lib: Runtime): Result<Value, DecodeError>
    requires i < |data| && IsHinted(data[i].0)
    decreases Size(VMap(data)), 0, i, 0
  {
    var (key, value) := data[i];
    EntrySmaller(VMap(data), |data|, i);
    match ConvertValueWithTypeHint(value, HintOf(key), lib)
    case Err(c) => Err(ConvertFailed(CleanKey(key), HintOf(key), c))
    case Ok(cv) => Ok(cv)
  }

  /** processTypeHints over the first n entries, in iteration order: the first
      failing conversion aborts; otherwise each entry is stored under its clean name. */
  function ProcessFirst(data: seq<(string, Value)>, n: nat, lib: Runtime): Result<seq<(string, Value)>, DecodeError>
    requires n <= |data|
    decreases Size(VMap(data)), 0, n, 2
  {
    if n == 0 then Ok([])
    else
      match ProcessFirst(data, n - 1, lib)
      case Err(e) => Err(e)
      case Ok(acc) => StoreEntry(acc, data, n - 1, lib)
  }

  /** Stores entry i into the map built so far: converted under its clean name
      when hinted, as it is otherwise. */
  function StoreEntry(acc: seq<(string, Value)>, data: seq<(string, Value)>, i: nat, lib: Runtime): Result<seq<(string, Value)>, DecodeError>
    requires i < |data|
    decreases Size(VMap(data)), 0, i, 1
  {
    var key := data[i].0;
    if IsHinted(key) then
      match ConvertEntry(data, i, lib)
      case Err(e) => Err(e)
      case Ok(cv) => Ok(Assign(acc, CleanKey(key), cv))
    else Ok(Assign(acc, key, data[i].1))
  }

  function ProcessTypeHints(data: seq<(string, Value)>, lib: Runtime): Result<seq<(string, Value)>, DecodeError> {
    ProcessFirst(data, |data|, lib)
  }

  // ---------------------------------------------------------------------------
  // Go values to attribute values

  /** The set an `__SS`, `__NS` or `__BS` marker stands for, checked in that order. */
  function SetMarker(es: seq<(string, Value)>): Option<AttrValue> {
    var ss: Option<Value> := Lookup(es, "__SS");
    var ns: Option<Value> := Lookup(es, "__NS");
    var bs: Option<Value> := Lookup(es, "__BS");
    if ss.Some? && ss.value.VStrings? then Some(SS(ss.value.strs))
    else if ns.Some? && ns.value.VStrings? then Some(NS(ns.value.strs))
    else if bs.Some? && bs.value.VByteSlices? then Some(BS(bs.value.slices))
    else None
  }

  /** valueToAttr. */
  function ValueToAttr(v: Value, lib: Runtime): AttrValue
    decreases v
  {
    match v
    case VString(s) => S(s)
    case VNumber(t) => N(t)
    case VFloat(_) => N(lib.formatOther(v))
    case VBool(b) => BOOL(b)
    case VNil => NULL
    case VBytes(b) => B(b)
    case VList(xs) => L(seq(|xs|, i requires 0 <= i < |xs| => ValueToAttr(xs[i], lib)))
    case VMap(es) =>
      (match SetMarker(es)
       case Some(set_) => set_
       case None => M(seq(|es|, i requires 0 <= i < |es| => (es[i].0, ValueToAttr(es[i].1, lib)))))
    case VStrings(_) => S(lib.formatOther(v))
    case VByteSlices(_) => S(lib.formatOther(v))
  }

  /** interfaceToAttributeValue. */
  function InterfaceToAttributeValue(data: seq<(string, Value)>, lib: Runtime): Item {
    seq(|data|, i requires 0 <= i < |data| => (data[i].0, ValueToAttr(data[i].1, lib)))
  }

  /** The decoded object, hints applied, as an item. */
  function DecodeEntries(data: seq<(string, Value)>, lib: Runtime): Result<Item, DecodeError> {
    match ProcessTypeHints(data, lib)
    case Err(e) => Err(e)
    case Ok(p) => Ok(InterfaceToAttributeValue(p, lib))
  }

  /** JSONToItem. */
  function JSONToItem(text: string, lib: Runtime): Result<Item, DecodeError> {
    match UnmarshalObject(lib, text)
    case None => Err(InvalidJson(lib.jsonError(text)))
    case Some(data) => DecodeEntries(data, lib)
  }

  // ---------------------------------------------------------------------------
  // Encoding

  /** attrToInterface. */
  function AttrToInterface(a: AttrValue): Value
    decreases a
  {
    match a
    case S(s) => VString(s)
    case N(n) => VNumber(n)
    case BOOL(b) => VBool(b)
    case NULL => VNil
    case L(xs) => VList(seq(|xs|, i requires 0 <= i < |xs| => AttrToInterface(xs[i])))
    case M(es) => VMap(seq(|es|, i requires 0 <= i < |es| => (es[i].0, AttrToInterface(es[i].1))))
    case SS(ss) => VStrings(ss)
    case NS(ns) => VStrings(ns)
    case B(b) => VBytes(b)
    case BS(bs) => VByteSlices(bs)
  }

  /** attributeValueToInterface. */
  function AttributeValueToInterface(item: Item): seq<(string, Value)> {
    AttrToInterface(M(item)).entries
  }

  /** json.Marshal of a Go value, as a tree. Object members keep their order
      (encoding/json sorts them; the order is lost again when the text is read
      back into a map). */
  function Marshal(v: Value, lib: Runtime): Json
    decreases v
  {
    match v
    case VNil => JNull
    case VBool(b) => JBool(b)
    case VString(s) => JString(s)
    case VNumber(t) => JNumber(t)
    case VFloat(lit) => JNumber(lit)
    case VBytes(b) => JString(lib.base64(b))
    case VList(xs) => JArray(seq(|xs|, i requires 0 <= i < |xs| => Marshal(xs[i], lib)))
    case VMap(es) => JObject(seq(|es|, i requires 0 <= i < |es| => (es[i].0, Marshal(es[i].1, lib))))
    case VStrings(ss) => JArray(seq(|ss|, i requires 0 <= i < |ss| => JString(ss[i])))
    case VByteSlices(bs) => JArray(seq(|bs|, i requires 0 <= i < |bs| => JString(lib.base64(bs[i]))))
  }

  /** The JSON tree ItemToJSON and ItemToPrettyJSON print. */
  function ItemToJson(item: Item, lib: Runtime): Json {
    Marshal(VMap(AttributeValueToInterface(item)), lib)
  }

  /** One attribute value as the encoder writes it: S, N, BOOL and NULL become
      their JSON counterparts, L and M keep length, order and names, and every
      set becomes the plain array of its members. */
  function EncodeAttr(a: AttrValue, lib: Runtime): (j: Json)
    ensures a.S? ==> j == JString(a.s)
    ensures a.N? ==> j == JNumber(a.n)
    ensures a.BOOL? ==> j == JBool(a.b)
    ensures a.NULL? ==> j == JNull
    ensures a.L? ==> (j.JArray? && |j.elems| == |a.l|
                      && forall i :: 0 <= i < |a.l| ==> j.elems[i] == EncodeAttr(a.l[i], lib))
    ensures a.M? ==> (j.JObject? && |j.members| == |a.m|
                      && forall i :: 0 <= i < |a.m| ==> j.members[i] == (a.m[i].0, EncodeAttr(a.m[i].1, lib)))
    ensures a.SS? ==> j == JArray(seq(|a.ss|, i requires 0 <= i < |a.ss| => JString(a.ss[i])))
    ensures a.NS? ==> j == JArray(seq(|a.ns|, i requires 0 <= i < |a.ns| => JString(a.ns[i])))
    ensures a.B? ==> j == JString(lib.base64(a.bytes))
    ensures a.BS? ==> j == JArray(seq(|a.bs|, i requires 0 <= i < |a.bs| => JString(lib.base64(a.bs[i]))))
  {
    Marshal(AttrToInterface(a), lib)
  }

  // ---------------------------------------------------------------------------
  // The type-only view

  /** attrToType: the DynamoDB type of each value; lists and maps also show the
      types of their elements (members listed in the order json.Marshal sorts them). */
  function AttrToType(a: AttrValue): Json
    decreases a
  {
    match a
    case S(_) => JString("S")
    case N(_) => JString("N")
    case BOOL(_) => JString("BOOL")
    case NULL => JString("NULL")
    case L(xs) => JObject([("elements", JArray(seq(|xs|, i requires 0 <= i < |xs| => AttrToType(xs[i])))),
                           ("type", JString("L"))])
    case M(es) => JObject([("attributes", JObject(seq(|es|, i requires 0 <= i < |es| => (es[i].0, AttrToType(es[i].1))))),
                           ("type", JString("M"))])
    case SS(_) => JString("SS")
    case NS(_) => JString("NS")
    case B(_) => JString("B")
    case BS(_) => JString("BS")
  }

  /** attributeValueToTypeMap. */
  function AttributeValueToTypeMap(item: Item): Json {
    JObject(seq(|item|, i requires 0 <= i < |item| => (item[i].0, AttrToType(item[i].1))))
  }
}
