/**
  Round trips between DDlog records and OVSDB JSON, in both directions, each with the exact set
  of values for which it holds.
 */
module OvsdbRoundTrip {
  import opened Stream
  import opened Records
  import opened Ovsdb

  // ---- fixed-width hexadecimal -----------------------------------------------------------

  function Pow16(k: nat): nat {
    if k == 0 then 1 else 16 * Pow16(k - 1)
  }

  lemma Constants()
    ensures Pow16(16) == TWO_64 && Pow16(32) == TWO_128
  {
    assert Pow16(4) == 0x1_0000;
    assert Pow16(8) == 0x1_0000_0000;
    assert Pow16(12) == 0x1_0000_0000_0000;
    assert Pow16(16) == TWO_64;
    assert Pow16(20) == TWO_64 * 0x1_0000;
    assert Pow16(24) == TWO_64 * 0x1_0000_0000;
    assert Pow16(28) == TWO_64 * 0x1_0000_0000_0000;
  }

  lemma {:induction false} HexPadValue(n: nat, width: nat)
    requires n < Pow16(width)
    ensures NumberValue(HexPad(n, width), 16) == n
  {
    if width > 0 {
      HexPadValue(n / 16, width - 1);
      NumberSnoc(HexPad(n / 16, width - 1), DigitChar(n % 16), 16);
    }
  }

  predicate IsLowerHex(c: char) {
    IsDigit(c) || 'a' <= c <= 'f'
  }

  predicate LowerHex(h: string) {
    forall i :: 0 <= i < |h| ==> IsLowerHex(h[i])
  }

  lemma LowerDigit(c: char)
    requires IsLowerHex(c)
    ensures DigitChar(DigitValue(c)) == c && c != '_' && c != '-'
  {
  }

  /** Lower-case digits are the fixed-width text of their value, which fits the width. */
  lemma {:induction false} HexPadUnique(h: string)
    requires LowerHex(h)
    ensures NumberValue(h, 16) < Pow16(|h|)
    ensures HexPad(NumberValue(h, 16), |h|) == h
  {
    if h != [] {
      var init, last := h[..|h| - 1], h[|h| - 1];
      HexPadUnique(init);
      LowerDigit(last);
      NumberSnoc(init, last, 16);
      assert h == init + [last];
      HexPadSnoc(NumberValue(init, 16), DigitValue(last), |init|);
    }
  }

  lemma HexPadSnoc(n: nat, d: nat, width: nat)
    requires d < 16
    ensures HexPad(16 * n + d, width + 1) == HexPad(n, width) + [DigitChar(d)]
  {
    assert (16 * n + d) / 16 == n && (16 * n + d) % 16 == d;
  }

  /** The value reaches `16^k` exactly if one of the digits above the last `k` is not zero. */
  lemma {:induction false} HighDigits(h: string, k: nat)
    requires LowerHex(h) && k <= |h|
    ensures NumberValue(h, 16) >= Pow16(k) <==> exists i :: 0 <= i < |h| - k && h[i] != '0'
    decreases |h|
  {
    if |h| > 0 {
      var init, last := h[..|h| - 1], h[|h| - 1];
      LowerDigit(last);
      NumberSnoc(init, last, 16);
      assert h == init + [last];
      if k > 0 {
        HighDigits(init, k - 1);
        assert forall i :: 0 <= i < |h| - k ==> h[i] == init[i];
      } else {
        HighDigits(init, 0);
        assert forall i :: 0 <= i < |init| ==> h[i] == init[i];
        if NumberValue(init, 16) >= 1 {
          var i :| 0 <= i < |init| && init[i] != '0';
          assert h[i] != '0';
        } else if last != '0' {
          assert h[|h| - 1] != '0';
        }
      }
    }
  }

  // ---- UUID text -------------------------------------------------------------------------

  lemma {:induction false} StripCat(a: string, b: string)
    ensures Strip(a + b) == Strip(a) + Strip(b)
  {
    if a == [] {
      assert a + b == b;
    } else {
      assert (a + b)[1..] == a[1..] + b;
      StripCat(a[1..], b);
    }
  }

  lemma {:induction false} StripHex(h: string)
    requires forall i :: 0 <= i < |h| ==> h[i] != '-'
    ensures Strip(h) == h
  {
    if h != [] {
      StripHex(h[1..]);
    }
  }

  lemma StripHyphen()
    ensures Strip("-") == ""
  {
    assert "-"[1..] == "";
  }

  lemma StripJoin(a: string, b: string)
    requires forall i :: 0 <= i < |b| ==> b[i] != '-'
    ensures Strip(a + "-" + b) == Strip(a) + b
  {
    StripCat(a + "-", b);
    StripCat(a, "-");
    StripHex(b);
    StripHyphen();
    assert Strip(a) + "" == Strip(a);
  }

  lemma StripHyphenate(h: string)
    requires |h| == 32 && forall i :: 0 <= i < |h| ==> h[i] != '-'
    ensures Strip(Hyphenate(h)) == h
  {
    var a, b, c, d, e := h[..8], h[8..12], h[12..16], h[16..20], h[20..];
    StripHex(a);
    StripJoin(a, b);
    StripJoin(a + "-" + b, c);
    StripJoin(a + "-" + b + "-" + c, d);
    StripJoin(a + "-" + b + "-" + c + "-" + d, e);
    assert h == a + b + c + d + e;
  }

  lemma ParsePlain(h: string)
    requires h != [] && IsNumberText(h) && IsHexDigit(h[0])
    ensures ParseHex(h) == Ok(NumberValue(h, 16))
  {
  }

  /** Every 128-bit integer is read back from its UUID text. */
  lemma UuidRoundTrip(n: nat)
    requires n < TWO_128
    ensures ParseUuid(UuidText(n)) == Ok(n)
  {
    Constants();
    StripHyphenate(HexPad(n, 32));
    HexPadValue(n, 32);
    ParsePlain(HexPad(n, 32));
  }

  /** The UUID texts that name integers of at least 2^64: lower case, in the standard layout,
      and not zero in all of the first sixteen digits. */
  predicate CanonicalUuid(s: string) {
    var h := Strip(s);
    && |h| == 32
    && s == Hyphenate(h)
    && LowerHex(h)
    && exists i :: 0 <= i < 16 && h[i] != '0'
  }

  /** A text is what the printer writes for its value, and that value is printed as a UUID, if
      and only if the text is canonical. */
  lemma CanonicalUuidExact(s: string)
    ensures CanonicalUuid(s) <==>
      ParseUuid(s).Ok? && TWO_64 <= ParseUuid(s).value < TWO_128 && UuidText(ParseUuid(s).value) == s
  {
    Constants();
    var h := Strip(s);
    if |h| == 32 && s == Hyphenate(h) && LowerHex(h) {
      ParsePlain(h);
      HexPadUnique(h);
      HighDigits(h, 16);
    } else if ParseUuid(s).Ok? && TWO_64 <= ParseUuid(s).value < TWO_128 && UuidText(ParseUuid(s).value) == s {
      var n := ParseUuid(s).value;
      StripHyphenate(HexPad(n, 32));
      PadIsLower(n, 32);
    }
  }

  lemma {:induction false} PadIsLower(n: nat, width: nat)
    ensures LowerHex(HexPad(n, width))
  {
    if width > 0 {
      PadIsLower(n / 16, width - 1);
    }
  }

  // ---- records to JSON and back ----------------------------------------------------------

  predicate Encodable(r: Record)
    decreases r, 1
  {
    match r
    case Bool(_) => true
    case Str(_) => true
    case Int(i) => 0 <= i < TWO_128
    case NamedStruct(name, fields) =>
      || (name == "ddlog_std::None" && fields == [])
      || (name == "ddlog_std::Some" && |fields| == 1 && FieldEncodable(fields[0]))
    case Array(Set, items) => AllEncodable(items)
    case Array(Map, items) => AllPairs(items)
    case _ => false
  }

  predicate FieldEncodable(f: (string, Record))
    decreases f, 0
  {
    Encodable(f.1)
  }

  predicate AllEncodable(rs: seq<Record>)
    decreases rs, 0
  {
    rs != [] ==> Encodable(rs[0]) && AllEncodable(rs[1..])
  }

  predicate IsPair(r: Record)
    decreases r, 0
  {
    r.Tuple? && |r.items| == 2 && Encodable(r.items[0]) && Encodable(r.items[1])
  }

  predicate AllPairs(rs: seq<Record>)
    decreases rs, 0
  {
    rs != [] ==> IsPair(rs[0]) && AllPairs(rs[1..])
  }

  /** Options become sets of at most one element.  A constructor of that name with other fields is
      no option: fields it has too many would be lost. */
  function Sets(r: Record): Record
    decreases r, 1
  {
    match r
    case NamedStruct(name, fields) =>
      if name == "ddlog_std::None" && fields == [] then Array(Set, [])
      else if name == "ddlog_std::Some" && |fields| == 1 then Array(Set, [FieldSets(fields[0])])
      else r
    case Array(Set, items) => Array(Set, AllSets(items))
    case Array(Map, items) => Array(Map, AllPairSets(items))
    case _ => r
  }

  function FieldSets(f: (string, Record)): Record
    decreases f, 0
  {
    Sets(f.1)
  }

  function AllSets(rs: seq<Record>): (s: seq<Record>)
    ensures |s| == |rs|
    decreases rs, 0
  {
    if rs == [] then [] else [Sets(rs[0])] + AllSets(rs[1..])
  }

  function PairSets(r: Record): Record
    decreases r, 0
  {
    if r.Tuple? && |r.items| == 2 then Tuple([Sets(r.items[0]), Sets(r.items[1])]) else r
  }

  function AllPairSets(rs: seq<Record>): (s: seq<Record>)
    ensures |s| == |rs|
    decreases rs, 0
  {
    if rs == [] then [] else [PairSets(rs[0])] + AllPairSets(rs[1..])
  }

  ghost predicate ComesBack(r: Record) {
    RecordIntoField(r).Ok? && RecordFromVal(RecordIntoField(r).value) == Ok(Sets(r))
  }

  lemma IntComesBack(i: int)
    ensures ComesBack(Int(i)) <==> Encodable(Int(i))
  {
    if TWO_64 <= i < TWO_128 {
      UuidRoundTrip(i);
      assert RecordIntoField(Int(i)) == Ok(Tagged("uuid", JStr(UuidText(i))));
      assert RecordFromArray([JStr("uuid"), JStr(UuidText(i))]) == Ok(Int(i));
    }
  }

  /** A record survives the conversion to JSON and back, with options turned into sets, if and
      only if it is built from strings, Booleans, integers of 0 to 2^128 - 1, options, sets, and
      maps of pairs.  Negative integers are written but not read. */
  lemma {:induction false} RecordRoundTrip(r: Record)
    ensures ComesBack(r) <==> Encodable(r)
    decreases r, 1
  {
    match r
    case Int(i) => IntComesBack(i);
    case NamedStruct(name, fields) =>
      if name == "ddlog_std::None" {
        assert RecordFromArray([JStr("set"), JArr([])]) == Ok(Array(Set, []));
      } else if name == "ddlog_std::Some" && fields != [] {
        FieldRoundTrip(fields[0]);
        if FieldValue(fields[0]).Ok? {
          OneElement(FieldValue(fields[0]).value);
        }
      }
    case Array(Set, items) =>
      AllRoundTrip(items);
      if RecordsIntoFields(items).Ok? {
        SetRead(RecordsIntoFields(items).value);
      }
    case Array(Map, items) =>
      PairsRoundTrip(items);
      if PairsIntoFields(items).Ok? {
        MapRead(PairsIntoFields(items).value);
      }
    case _ =>
  }

  lemma SetRead(vs: seq<Json>)
    ensures RecordFromVal(Tagged("set", JArr(vs))) ==
            if RecordsFromVals(vs).Ok? then Ok(Array(Set, RecordsFromVals(vs).value))
              else RecordsFromVals(vs).PropagateFailure()
  {
  }

  lemma MapRead(vs: seq<Json>)
    ensures RecordFromVal(Tagged("map", JArr(vs))) ==
            if PairsFromVals(vs).Ok? then Ok(Array(Map, PairsFromVals(vs).value))
              else PairsFromVals(vs).PropagateFailure()
  {
  }

  lemma OneElement(v: Json)
    ensures RecordFromVal(Tagged("set", JArr([v]))) ==
            if RecordFromVal(v).Ok? then Ok(Array(Set, [RecordFromVal(v).value]))
              else RecordFromVal(v).PropagateFailure()
  {
    SetRead([v]);
    var r := RecordFromVal(v);
    assert [v][1..] == [] && RecordsFromVals([]) == Ok([]);
    if r.Ok? {
      assert [r.value] + [] == [r.value];
      assert RecordsFromVals([v]) == Ok([r.value]);
    }
  }

  lemma {:induction false} FieldRoundTrip(f: (string, Record))
    ensures (FieldValue(f).Ok? && RecordFromVal(FieldValue(f).value) == Ok(FieldSets(f))) <==> FieldEncodable(f)
    decreases f, 0
  {
    RecordRoundTrip(f.1);
  }

  lemma {:induction false} AllRoundTrip(rs: seq<Record>)
    ensures (RecordsIntoFields(rs).Ok? && RecordsFromVals(RecordsIntoFields(rs).value) == Ok(AllSets(rs))) <==>
      AllEncodable(rs)
    decreases rs, 0
  {
    if rs != [] {
      RecordRoundTrip(rs[0]);
      AllRoundTrip(rs[1..]);
      if RecordsIntoFields(rs).Ok? {
        var vs := RecordsIntoFields(rs).value;
        assert vs[1..] == RecordsIntoFields(rs[1..]).value;
        if RecordsFromVals(vs).Ok? {
          assert RecordsFromVals(vs).value[1..] == RecordsFromVals(vs[1..]).value;
          assert AllSets(rs)[1..] == AllSets(rs[1..]);
        }
      }
    }
  }

  lemma {:induction false} PairRoundTrip(r: Record)
    ensures (PairIntoField(r).Ok? && PairFromVal(PairIntoField(r).value) == Ok(PairSets(r))) <==> IsPair(r)
    decreases r, 0
  {
    if r.Tuple? && |r.items| == 2 {
      RecordRoundTrip(r.items[0]);
      RecordRoundTrip(r.items[1]);
      if PairIntoField(r).Ok? && PairFromVal(PairIntoField(r).value).Ok? {
        var t := PairFromVal(PairIntoField(r).value).value;
        assert t.items[0] == RecordFromVal(RecordIntoField(r.items[0]).value).value;
        assert t.items[1] == RecordFromVal(RecordIntoField(r.items[1]).value).value;
        assert PairSets(r).items[0] == Sets(r.items[0]) && PairSets(r).items[1] == Sets(r.items[1]);
      }
    }
  }

  lemma {:induction false} PairsRoundTrip(rs: seq<Record>)
    ensures (PairsIntoFields(rs).Ok? && PairsFromVals(PairsIntoFields(rs).value) == Ok(AllPairSets(rs))) <==>
      AllPairs(rs)
    decreases rs, 0
  {
    if rs != [] {
      PairRoundTrip(rs[0]);
      PairsRoundTrip(rs[1..]);
      if PairsIntoFields(rs).Ok? {
        var vs := PairsIntoFields(rs).value;
        assert vs[1..] == PairsIntoFields(rs[1..]).value;
        if PairsFromVals(vs).Ok? {
          assert PairsFromVals(vs).value[1..] == PairsFromVals(vs[1..]).value;
          assert AllPairSets(rs)[1..] == AllPairSets(rs[1..]);
        }
      }
    }
  }

  // ---- JSON to records and back ----------------------------------------------------------

  predicate Canonical(v: Json)
    decreases v, 1
  {
    match v
    case JBool(_) => true
    case JStr(_) => true
    case JInt(n) => 0 <= n < TWO_64
    case JArr(items) => CanonicalArray(items)
    case _ => false
  }

  predicate CanonicalArray(src: seq<Json>)
    decreases src, 0
  {
    && |src| == 2 && src[0].JStr?
    && match (src[0].s, src[1])
       case ("uuid", JStr(uuid)) => CanonicalUuid(uuid)
       case ("set", JArr(atoms)) => AllCanonical(atoms)
       case ("map", JArr(pairs)) => AllCanonicalPairs(pairs)
       case _ => false
  }

  predicate AllCanonical(vs: seq<Json>)
    decreases vs, 0
  {
    vs != [] ==> Canonical(vs[0]) && AllCanonical(vs[1..])
  }

  predicate CanonicalPair(v: Json)
    decreases v, 0
  {
    v.JArr? && |v.items| == 2 && Canonical(v.items[0]) && Canonical(v.items[1])
  }

  predicate AllCanonicalPairs(vs: seq<Json>)
    decreases vs, 0
  {
    vs != [] ==> CanonicalPair(vs[0]) && AllCanonicalPairs(vs[1..])
  }

  ghost predicate Reproduced(v: Json) {
    RecordFromVal(v).Ok? && RecordIntoField(RecordFromVal(v).value) == Ok(v)
  }

  /** A JSON value is reproduced from its record if and only if it is canonical. */
  lemma {:induction false} JsonRoundTrip(v: Json)
    ensures Reproduced(v) <==> Canonical(v)
    decreases v, 1
  {
    match v
    case JArr(items) => ArrayReproduced(items);
    case _ =>
  }

  lemma {:induction false} ArrayReproduced(src: seq<Json>)
    ensures Reproduced(JArr(src)) <==> CanonicalArray(src)
    decreases src, 0
  {
    if |src| == 2 && src[0].JStr? {
      match (src[0].s, src[1])
      case ("uuid", JStr(uuid)) =>
        UuidReproduced(uuid);
        assert src == [JStr("uuid"), JStr(uuid)];
      case ("set", JArr(atoms)) =>
        assert src == [JStr("set"), JArr(atoms)];
        AllReproduced(atoms);
        SetRead(atoms);
      case ("map", JArr(pairs)) =>
        assert src == [JStr("map"), JArr(pairs)];
        PairsReproduced(pairs);
        MapRead(pairs);
      case _ =>
    }
  }

  lemma SplitEqual<T>(a: seq<T>, b: seq<T>)
    requires a != [] && b != []
    ensures a == b <==> a[0] == b[0] && a[1..] == b[1..]
  {
    assert a == [a[0]] + a[1..] && b == [b[0]] + b[1..];
  }

  lemma UuidReproduced(uuid: string)
    ensures Reproduced(Tagged("uuid", JStr(uuid))) <==> CanonicalUuid(uuid)
  {
    var v := Tagged("uuid", JStr(uuid));
    CanonicalUuidExact(uuid);
    assert RecordFromVal(v) == RecordFromArray(v.items);
    if ParseUuid(uuid).Ok? {
      var i := ParseUuid(uuid).value;
      assert RecordFromVal(v) == Ok(Int(i));
      if TWO_64 <= i < TWO_128 {
        var w := Tagged("uuid", JStr(UuidText(i)));
        assert RecordIntoField(Int(i)) == Ok(w);
        assert w == v <==> w.items[1] == v.items[1];
      }
    }
  }

  lemma {:induction false} AllReproduced(vs: seq<Json>)
    ensures (RecordsFromVals(vs).Ok? && RecordsIntoFields(RecordsFromVals(vs).value) == Ok(vs)) <==> AllCanonical(vs)
    decreases vs, 0
  {
    if vs != [] {
      JsonRoundTrip(vs[0]);
      AllReproduced(vs[1..]);
      if RecordsFromVals(vs).Ok? {
        var rs := RecordsFromVals(vs).value;
        assert rs[1..] == RecordsFromVals(vs[1..]).value;
        if RecordsIntoFields(rs).Ok? {
          var us := RecordsIntoFields(rs).value;
          assert us[1..] == RecordsIntoFields(rs[1..]).value;
          SplitEqual(us, vs);
        }
      }
    }
  }

  lemma {:induction false} PairReproduced(v: Json)
    ensures (PairFromVal(v).Ok? && PairIntoField(PairFromVal(v).value) == Ok(v)) <==> CanonicalPair(v)
    decreases v, 0
  {
    if v.JArr? && |v.items| == 2 {
      JsonRoundTrip(v.items[0]);
      JsonRoundTrip(v.items[1]);
      if PairFromVal(v).Ok? && PairIntoField(PairFromVal(v).value).Ok? {
        var w := PairIntoField(PairFromVal(v).value).value;
        assert w.items[0] == RecordIntoField(RecordFromVal(v.items[0]).value).value;
        assert w.items[1] == RecordIntoField(RecordFromVal(v.items[1]).value).value;
        assert w == v <==> w.items == v.items;
      }
    }
  }

  lemma {:induction false} PairsReproduced(vs: seq<Json>)
    ensures (PairsFromVals(vs).Ok? && PairsIntoFields(PairsFromVals(vs).value) == Ok(vs)) <==> AllCanonicalPairs(vs)
    decreases vs, 0
  {
    if vs != [] {
      PairReproduced(vs[0]);
      PairsReproduced(vs[1..]);
      if PairsFromVals(vs).Ok? {
        var rs := PairsFromVals(vs).value;
        assert rs[1..] == PairsFromVals(vs[1..]).value;
        if PairsIntoFields(rs).Ok? {
          var us := PairsIntoFields(rs).value;
          assert us[1..] == PairsIntoFields(rs[1..]).value;
          SplitEqual(us, vs);
        }
      }
    }
  }

  // ---- values outside the round trips ----------------------------------------------------

  /** Zero and negative integers are written as they are, down to -2^63, and those below zero are
      not read; greater ones are written as numbers or as UUIDs up to 2^128. */
  lemma NumbersWritten(i: int)
    ensures RecordIntoField(Int(i)) ==
            if i < -TWO_63 || i >= TWO_128 then Err
            else if i < TWO_64 then Ok(JInt(i))
            else Ok(JArr([JStr("uuid"), JStr(UuidText(i))]))
    ensures i < 0 || i >= TWO_64 ==> RecordFromVal(JInt(i)) == Err
  {
  }

  /** A named UUID is read as its name, and then written as a string. */
  lemma NamedUuidIsString(name: string)
    ensures RecordFromVal(JArr([JStr("named-uuid"), JStr(name)])) == Ok(Str(name))
    ensures RecordIntoField(Str(name)) == Ok(JStr(name))
  {
    var src := [JStr("named-uuid"), JStr(name)];
    assert src[0].s == "named-uuid" && src[1] == JStr(name);
    assert RecordFromArray(src) == Ok(Str(name));
  }

  /** Hyphens mean nothing in a UUID, wherever they stand. */
  lemma HyphensMeanNothing(a: string, b: string)
    ensures ParseUuid(a + "-" + b) == ParseUuid(a + b)
  {
    StripCat(a, "-" + b);
    StripCat("-", b);
    StripCat(a, b);
    assert a + "-" + b == a + ("-" + b);
    assert Strip("-") == "";
    assert "" + Strip(b) == Strip(b);
  }

  /** Upper-case and lower-case digits mean the same. */
  predicate SameDigit(c: char, d: char) {
    c == d || ('a' <= c <= 'f' && d as int == c as int - 32) || ('A' <= c <= 'F' && d as int == c as int + 32)
  }

  lemma {:induction false} CaseMeansNothing(s: string, t: string)
    requires |s| == |t| && forall i :: 0 <= i < |s| ==> SameDigit(s[i], t[i])
    ensures IsNumberText(s) == IsNumberText(t)
    ensures IsNumberText(s) ==> NumberValue(s, 16) == NumberValue(t, 16)
  {
    if s != [] {
      var n := |s| - 1;
      assert forall i :: 0 <= i < n ==> SameDigit(s[..n][i], t[..n][i]);
      CaseMeansNothing(s[..n], t[..n]);
      assert SameDigit(s[n], t[n]);
    }
  }

  // ---- which values are converted at all -------------------------------------------------

  /** Strings, Booleans, unsigned 64-bit numbers, UUIDs, named UUIDs, and sets and maps of these. */
  predicate Reads(v: Json)
    decreases v, 1
  {
    match v
    case JStr(_) => true
    case JBool(_) => true
    case JInt(n) => 0 <= n < TWO_64
    case JArr(items) => ReadsArray(items)
    case _ => false
  }

  predicate ReadsArray(src: seq<Json>)
    decreases src, 0
  {
    && |src| == 2 && src[0].JStr?
    && ((src[0].s == "uuid" && src[1].JStr? && ParseUuid(src[1].s).Ok?)
        || (src[0].s == "named-uuid" && src[1].JStr?)
        || (src[0].s == "set" && src[1].JArr? && ReadsAll(src[1].items))
        || (src[0].s == "map" && src[1].JArr? && ReadsPairs(src[1].items)))
  }

  predicate ReadsAll(vs: seq<Json>)
    decreases vs, 0
  {
    vs != [] ==> Reads(vs[0]) && ReadsAll(vs[1..])
  }

  predicate ReadsPairs(vs: seq<Json>)
    decreases vs, 0
  {
    vs != [] ==> ReadsPair(vs[0]) && ReadsPairs(vs[1..])
  }

  predicate ReadsPair(v: Json)
    decreases v, 0
  {
    v.JArr? && |v.items| == 2 && Reads(v.items[0]) && Reads(v.items[1])
  }

  /** No other JSON value is read. */
  lemma {:induction false} ReadsExact(v: Json)
    ensures RecordFromVal(v).Ok? <==> Reads(v)
    decreases v, 1
  {
    if v.JArr? {
      ReadsArrayExact(v.items);
    }
  }

  lemma {:induction false} ReadsArrayExact(src: seq<Json>)
    ensures RecordFromArray(src).Ok? <==> ReadsArray(src)
    decreases src, 0
  {
    if |src| == 2 && src[0].JStr? && src[1].JArr? {
      ReadsAllExact(src[1].items);
      ReadsPairsExact(src[1].items);
    }
  }

  lemma {:induction false} ReadsAllExact(vs: seq<Json>)
    ensures RecordsFromVals(vs).Ok? <==> ReadsAll(vs)
    decreases vs, 0
  {
    if vs != [] {
      ReadsExact(vs[0]);
      ReadsAllExact(vs[1..]);
    }
  }

  lemma {:induction false} ReadsPairsExact(vs: seq<Json>)
    ensures PairsFromVals(vs).Ok? <==> ReadsPairs(vs)
    decreases vs, 0
  {
    if vs != [] {
      if vs[0].JArr? && |vs[0].items| == 2 {
        ReadsExact(vs[0].items[0]);
        ReadsExact(vs[0].items[1]);
      }
      ReadsPairsExact(vs[1..]);
    }
  }

  /** Strings, Booleans, integers from -2^63 below 2^128, options, sets, and maps of pairs.  Of an option
      only the first field counts. */
  predicate Writes(r: Record)
    decreases r, 1
  {
    match r
    case Bool(_) => true
    case Str(_) => true
    case Int(i) => -TWO_63 <= i < TWO_128
    case NamedStruct(name, fields) =>
      name == "ddlog_std::None" || (name == "ddlog_std::Some" && fields != [] && WritesField(fields[0]))
    case Array(Set, items) => WritesAll(items)
    case Array(Map, items) => WritesPairs(items)
    case _ => false
  }

  predicate WritesField(f: (string, Record))
    decreases f, 0
  {
    Writes(f.1)
  }

  predicate WritesAll(rs: seq<Record>)
    decreases rs, 0
  {
    rs != [] ==> Writes(rs[0]) && WritesAll(rs[1..])
  }

  predicate WritesPairs(rs: seq<Record>)
    decreases rs, 0
  {
    rs != [] ==> WritesPair(rs[0]) && WritesPairs(rs[1..])
  }

  predicate WritesPair(r: Record)
    decreases r, 0
  {
    r.Tuple? && |r.items| == 2 && Writes(r.items[0]) && Writes(r.items[1])
  }

  /** No other record is written. */
  lemma {:induction false} WritesExact(r: Record)
    ensures RecordIntoField(r).Ok? <==> Writes(r)
    decreases r, 1
  {
    match r
    case NamedStruct(name, fields) =>
      if fields != [] {
        WritesFieldExact(fields[0]);
      }
    case Array(Set, items) => WritesAllExact(items);
    case Array(Map, items) => WritesPairsExact(items);
    case _ =>
  }

  lemma {:induction false} WritesFieldExact(f: (string, Record))
    ensures FieldValue(f).Ok? <==> WritesField(f)
    decreases f, 0
  {
    WritesExact(f.1);
  }

  lemma {:induction false} WritesAllExact(rs: seq<Record>)
    ensures RecordsIntoFields(rs).Ok? <==> WritesAll(rs)
    decreases rs, 0
  {
    if rs != [] {
      WritesExact(rs[0]);
      WritesAllExact(rs[1..]);
    }
  }

  lemma {:induction false} WritesPairsExact(rs: seq<Record>)
    ensures PairsIntoFields(rs).Ok? <==> WritesPairs(rs)
    decreases rs, 0
  {
    if rs != [] {
      WritesPairExact(rs[0]);
      WritesPairsExact(rs[1..]);
    }
  }

  lemma {:induction false} WritesPairExact(r: Record)
    ensures PairIntoField(r).Ok? <==> WritesPair(r)
    decreases r, 0
  {
    if r.Tuple? && |r.items| == 2 {
      WritesExact(r.items[0]);
      WritesExact(r.items[1]);
    }
  }

  /** What can stand in a UUID text. */
  predicate UuidChar(c: char) {
    '0' <= c <= '9' || 'a' <= c <= 'f' || 'A' <= c <= 'F' || c == '-' || c == '_' || c == '+'
  }

  lemma {:induction false} StripKeeps(s: string, c: char)
    requires c != '-'
    ensures c in Strip(s) <==> c in s
  {
    if s != [] {
      StripKeeps(s[1..], c);
      assert c in s <==> c == s[0] || c in s[1..];
    }
  }

  /** Anything else in it makes a UUID invalid, and so does the lack of digits. */
  lemma UuidRejects(s: string, c: char)
    requires c in s && !UuidChar(c)
    ensures ParseUuid(s) == Err && ParseUuid("") == Err && ParseUuid("-") == Err
  {
    StripKeeps(s, c);
    var t := Strip(s);
    assert Strip("") == "" && Strip("-") == "";
    if t[0] == '+' {
      assert c in t[1..];
    }
  }
}
