/**
  OVSDB JSON values and DDlog records (rust/template/ovsdb/lib.rs): the two conversions for the
  values of RFC 7047, section 5.1, with UUIDs as 128-bit integers.
 */
module Ovsdb {
  import opened Stream
  import opened Records

  /** JSON as serde_json holds it.  Integers and floats are different numbers there. */
  datatype Json =
    | JNull
    | JBool(b: bool)
    | JInt(n: int)
    | JFloat(text: string)
    | JStr(s: string)
    | JArr(items: seq<Json>)
    | JObj(members: seq<(string, Json)>)

  datatype Result<+T> = Ok(value: T) | Err | Panic {
    predicate IsFailure() {
      !Ok?
    }

    function PropagateFailure<U>(): Result<U>
      requires IsFailure()
    {
      if Err? then Err else Panic
    }

    function Extract(): T
      requires Ok?
    {
      value
    }
  }

  const TWO_63: int := 0x8000_0000_0000_0000
  const TWO_64: int := 0x1_0000_0000_0000_0000
  const TWO_128: int := 0x1_0000_0000_0000_0000_0000_0000_0000_0000

  // ---- UUIDs -----------------------------------------------------------------------------

  function Strip(s: string): string {
    if s == [] then "" else (if s[0] == '-' then "" else [s[0]]) + Strip(s[1..])
  }

  /** `BigInt::parse_bytes(.., 16)` on text without minus signs: an optional plus sign, then
      hexadecimal digits and underscores that do not come first. */
  function ParseHex(s: string): Result<int> {
    var t := if |s| >= 1 && s[0] == '+' && !(|s| >= 2 && s[1] == '+') then s[1..] else s;
    if t == [] || t[0] == '_' || !IsNumberText(t) then Err else Ok(NumberValue(t, 16))
  }

  function ParseUuid(s: string): Result<int> {
    ParseHex(Strip(s))
  }

  /** Lower-case hexadecimal text of fixed width. */
  function HexPad(n: nat, width: nat): (t: string)
    ensures |t| == width && forall i :: 0 <= i < |t| ==> IsHexDigit(t[i])
  {
    if width == 0 then "" else HexPad(n / 16, width - 1) + [DigitChar(n % 16)]
  }

  /** The 8-4-4-4-12 layout of RFC 4122, section 3. */
  function Hyphenate(h: string): string
    requires |h| == 32
  {
    h[..8] + "-" + h[8..12] + "-" + h[12..16] + "-" + h[16..20] + "-" + h[20..]
  }

  function UuidText(n: nat): string {
    Hyphenate(HexPad(n, 32))
  }

  function UuidFromInt(i: int): Result<string> {
    if 0 <= i < TWO_128 then Ok(UuidText(i)) else Err
  }

  // ---- JSON to records -------------------------------------------------------------------

  function RecordFromVal(v: Json): Result<Record>
    decreases v, 1
  {
    match v
    case JStr(s) => Ok(Str(s))
    case JInt(n) => if 0 <= n < TWO_64 then Ok(Int(n)) else Err
    case JBool(b) => Ok(Bool(b))
    case JArr(items) => RecordFromArray(items)
    case _ => Err
  }

  function RecordFromArray(src: seq<Json>): Result<Record>
    decreases src, 0
  {
    if |src| != 2 || !src[0].JStr? then Err
    else
      match (src[0].s, src[1])
      case ("uuid", JStr(uuid)) => (var i :- ParseUuid(uuid); Ok(Int(i)))
      case ("named-uuid", JStr(name)) => Ok(Str(name))
      case ("set", JArr(atoms)) => (var elems :- RecordsFromVals(atoms); Ok(Array(Set, elems)))
      case ("map", JArr(pairs)) => (var elems :- PairsFromVals(pairs); Ok(Array(Map, elems)))
      case _ => Err
  }

  function RecordsFromVals(vs: seq<Json>): Result<seq<Record>>
    decreases vs, 0
  {
    if vs == [] then Ok([])
    else
      var r :- RecordFromVal(vs[0]);
      var rs :- RecordsFromVals(vs[1..]);
      Ok([r] + rs)
  }

  function PairsFromVals(vs: seq<Json>): Result<seq<Record>>
    decreases vs, 0
  {
    if vs == [] then Ok([])
    else
      var r :- PairFromVal(vs[0]);
      var rs :- PairsFromVals(vs[1..]);
      Ok([r] + rs)
  }

  function PairFromVal(v: Json): Result<Record>
    decreases v, 0
  {
    if !v.JArr? || |v.items| != 2 then Err
    else
      var key :- RecordFromVal(v.items[0]);
      var val :- RecordFromVal(v.items[1]);
      Ok(Tuple([key, val]))
  }

  // ---- records to JSON -------------------------------------------------------------------

  function Tagged(tag: string, v: Json): Json {
    JArr([JStr(tag), v])
  }

  function RecordIntoField(r: Record): Result<Json>
    decreases r, 1
  {
    match r
    case Bool(b) => Ok(JBool(b))
    case Str(s) => Ok(JStr(s))
    case Int(i) =>
      if i > 0 then
        if i < TWO_64 then Ok(JInt(i))
        else
          var uuid :- UuidFromInt(i);
          Ok(Tagged("uuid", JStr(uuid)))
      else if -TWO_63 <= i then Ok(JInt(i))
      else Err
    case NamedStruct(name, fields) =>
      if name == "ddlog_std::None" then Ok(Tagged("set", JArr([])))
      else if name == "ddlog_std::Some" then
        if fields == [] then Panic
        else
          var v :- FieldValue(fields[0]);
          Ok(Tagged("set", JArr([v])))
      else Err
    case Array(Set, items) => (var elems :- RecordsIntoFields(items); Ok(Tagged("set", JArr(elems))))
    case Array(Map, items) => (var elems :- PairsIntoFields(items); Ok(Tagged("map", JArr(elems))))
    case _ => Err
  }

  function FieldValue(f: (string, Record)): Result<Json>
    decreases f, 0
  {
    RecordIntoField(f.1)
  }

  function RecordsIntoFields(rs: seq<Record>): Result<seq<Json>>
    decreases rs, 0
  {
    if rs == [] then Ok([])
    else
      var v :- RecordIntoField(rs[0]);
      var vs :- RecordsIntoFields(rs[1..]);
      Ok([v] + vs)
  }

  function PairsIntoFields(rs: seq<Record>): Result<seq<Json>>
    decreases rs, 0
  {
    if rs == [] then Ok([])
    else
      var v :- PairIntoField(rs[0]);
      var vs :- PairsIntoFields(rs[1..]);
      Ok([v] + vs)
  }

  function PairIntoField(r: Record): Result<Json>
    decreases r, 0
  {
    if !r.Tuple? || |r.items| != 2 then Err
    else
      var v :- RecordIntoField(r.items[1]);
      var k :- RecordIntoField(r.items[0]);
      Ok(JArr([k, v]))
  }
}
