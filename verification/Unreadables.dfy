/**
  The other half of the record round trip: a printed record that is not readable is never read
  back, because the grammar returns well-formed names only and because unreadable text leaves
  the parser stuck before the end of the record.
 */
module Unreadables {
  import opened Stream
  import opened Records
  import opened Parser
  import opened RoundTrip

  // ---- the grammar returns well-formed names ---------------------------------------------

  lemma {:induction false} IdentTailPrefix(x: string)
    ensures IdentTail(x).Done? ==> IdentTail(x).value <= x
  {
    if x != [] && x != ":" {
      if IsIdChar(x[0]) {
        IdentTailPrefix(x[1..]);
      } else if x[0] == ':' && x[1] == ':' {
        IdentTailPrefix(x[2..]);
      }
    }
  }

  lemma IdentPrefix(x: string)
    ensures Ident(x).Done? ==> Ident(x).value <= x
  {
    if x != [] {
      IdentTailPrefix(x[1..]);
    }
  }

  /** Where no Boolean is read, an identifier is a constructor name. */
  lemma ConstructorSound(x: string)
    ensures BoolVal(x) == Fail && Ident(x).Done? ==> IsConstructor(Ident(x).value)
  {
    IdentSound(x);
    IdentPrefix(x);
    if BoolVal(x) == Fail && Ident(x).Done? {
      assert !("true" <= x) && !("false" <= x);
      var n := Ident(x).value;
      assert "true" <= n ==> "true" <= x;
      assert "false" <= n ==> "false" <= x;
    }
  }

  /** What the grammar returns: records with well-formed names, in normal form. */
  ghost predicate Sound(r: Record) {
    NamesOk(r) && Norm(r) == r
  }

  ghost predicate ItemsAreSound(rs: seq<Record>) {
    ItemNamesOk(rs) && NormItems(rs) == rs
  }

  ghost predicate FieldIsSound(f: (string, Record)) {
    FieldNameOk(f) && NormField(f) == f
  }

  ghost predicate FieldsAreSound(fs: seq<(string, Record)>) {
    FieldNamesOk(fs) && NormFields(fs) == fs
  }

  /** Every record the parser returns is well named and its own normal form. */
  lemma {:induction false} RecordSound(x: string)
    ensures ParseRecord(x).Done? ==> Sound(ParseRecord(x).value)
    decreases |x|, 2
  {
    var r := ParseRecord(x);
    if r.Done? {
      if BoolVal(x).Done? || StringVal(x).Done? {
      } else if SerializedVal(x) != Fail {
        SerializedSound(x);
      } else if TupleVal(x) != Fail {
        TupleSound(x);
      } else if ArrayVal(x) != Fail {
        ArraySound(x);
      } else if StructVal(x) != Fail {
        StructSound(x);
      }
    }
  }

  lemma SerializedSound(x: string)
    ensures SerializedVal(x).Done? ==> Sound(SerializedVal(x).value)
  {
    if Tag("@", x).Done? {
      IdentSound(Tag("@", x).rest);
    }
  }

  lemma {:induction false} TupleSound(x: string)
    ensures TupleVal(x).Done? ==> Sound(TupleVal(x).value)
    decreases |x|, 1
  {
    if TupleVal(x).Done? {
      ItemsSound(Sym("(", x).rest);
    }
  }

  lemma {:induction false} ArraySound(x: string)
    ensures ArrayVal(x).Done? ==> Sound(ArrayVal(x).value)
    decreases |x|, 1
  {
    if ArrayVal(x).Done? {
      ItemsSound(Sym("[", x).rest);
    }
  }

  lemma {:induction false} StructSound(x: string)
    ensures BoolVal(x) == Fail && StructVal(x).Done? ==> Sound(StructVal(x).value)
    decreases |x|, 1
  {
    if BoolVal(x) == Fail && StructVal(x).Done? {
      ConstructorSound(x);
      var name, r := Ident(x).value, Ident(x).rest;
      if Enclosed("{", name, r, "}").Done? {
        ArgsSound(name, Sym("{", r).rest);
      }
    }
  }

  lemma {:induction false} ArgsSound(name: string, x: string)
    requires IsConstructor(name)
    ensures ConstructorArgs(name, x).Done? ==> Sound(ConstructorArgs(name, x).value)
    decreases |x|, 4
  {
    if NamedArgs(name, x) == Fail {
      ItemsSound(x);
    } else {
      NamedArgsSound(name, x);
    }
  }

  lemma {:induction false} NamedArgsSound(name: string, x: string)
    requires IsConstructor(name)
    ensures NamedArgs(name, x).Done? ==> Sound(NamedArgs(name, x).value)
    decreases |x|, 3
  {
    if NamedRecord(x).Done? {
      NamedRecordSound(x);
      MoreFieldsSound(NamedRecord(x).rest);
    }
  }

  lemma {:induction false} ItemsSound(x: string)
    ensures Items(x).Done? ==> ItemsAreSound(Items(x).value)
    decreases |x|, 3
  {
    RecordSound(x);
    if ParseRecord(x).Done? {
      MoreItemsSound(ParseRecord(x).rest);
    }
  }

  lemma {:induction false} MoreItemsSound(x: string)
    ensures MoreItems(x).Done? ==> ItemsAreSound(MoreItems(x).value)
    decreases |x|, 3
  {
    if Sym(",", x).Done? {
      var r := Sym(",", x).rest;
      RecordSound(r);
      if ParseRecord(r).Done? {
        MoreItemsSound(ParseRecord(r).rest);
      }
    }
  }

  lemma {:induction false} NamedRecordSound(x: string)
    ensures NamedRecord(x).Done? ==> FieldIsSound(NamedRecord(x).value)
    decreases |x|, 2
  {
    if NamedRecord(x).Done? {
      var r1 := Sym(".", x).rest;
      IdentSound(r1);
      RecordSound(Sym("=", Ident(r1).rest).rest);
    }
  }

  lemma {:induction false} MoreFieldsSound(x: string)
    ensures MoreFields(x).Done? ==> FieldsAreSound(MoreFields(x).value)
    decreases |x|, 3
  {
    if Sym(",", x).Done? {
      var r := Sym(",", x).rest;
      NamedRecordSound(r);
      if NamedRecord(r).Done? {
        MoreFieldsSound(NamedRecord(r).rest);
      }
    }
  }

  // ---- normal form keeps names -----------------------------------------------------------

  lemma {:induction false} NormNames(r: Record)
    ensures NamesOk(Norm(r)) == NamesOk(r)
    decreases r, 1
  {
    match r
    case Tuple(items) => NormItemNames(items);
    case Array(_, items) => NormItemNames(items);
    case PosStruct(_, items) => NormItemNames(items);
    case NamedStruct(_, fields) => NormFieldNames(fields);
    case _ =>
  }

  lemma {:induction false} NormItemNames(rs: seq<Record>)
    ensures ItemNamesOk(NormItems(rs)) == ItemNamesOk(rs)
    decreases rs, 0
  {
    if rs != [] {
      NormNames(rs[0]);
      NormItemNames(rs[1..]);
    }
  }

  lemma {:induction false} NormFieldName(f: (string, Record))
    ensures FieldNameOk(NormField(f)) == FieldNameOk(f)
    decreases f, 0
  {
    NormNames(f.1);
  }

  lemma {:induction false} NormFieldNames(fs: seq<(string, Record)>)
    ensures FieldNamesOk(NormFields(fs)) == FieldNamesOk(fs)
    decreases fs, 0
  {
    if fs != [] {
      NormFieldName(fs[0]);
      NormFieldNames(fs[1..]);
    }
  }

  // ---- unreadable text -------------------------------------------------------------------

  /** The parser has given up, or stopped at an opening brace inside the text before `k`. */
  ghost predicate Broken<T>(res: Res<T>, k: string) {
    res == Fail || (res.Done? && res.rest != [] && res.rest[0] == '{' && |res.rest| > |k|)
  }

  /** Where no separator, bracket or white space comes next. */
  ghost predicate Stuck<T>(res: Res<T>) {
    res.Done? && res.rest != [] && !IsSpace(res.rest[0]) && !IsCloser(res.rest[0])
  }

  lemma {:induction false} RecordBroken(p: char -> bool, r: Record, k: string)
    requires Floatless(r) && NamesOk(r) && !TextsOk(p, r) && Delimited(k)
    ensures Broken(ParseRecord(Display(p, r) + k), k)
    decreases r, 6
  {
    var x := Display(p, r) + k;
    match r
    case Str(s) =>
      StrLitRead(p, s, k);
      ByOpener(x);
    case Serialized(_, _) =>
      NoRecord(x);
    case Tuple(items) =>
      Assoc("(", DisplayItems(p, items), ")", k);
      TupleBroken(p, items, k);
    case Array(kind, items) =>
      Assoc("[", DisplayItems(p, items), "]", k);
      ArrayBroken(p, items, k);
    case PosStruct(name, items) =>
      AssocName(name, "{", DisplayItems(p, items), "}", k);
      PosStructBroken(p, name, items, k);
    case NamedStruct(name, fields) =>
      AssocName(name, "{", DisplayFields(p, fields), "}", k);
      NamedStructBroken(p, name, fields, k);
  }

  lemma {:induction false} TupleBroken(p: char -> bool, items: seq<Record>, k: string)
    requires ItemsFloatless(items) && ItemNamesOk(items) && !ItemTextsOk(p, items)
    ensures ParseRecord("(" + (DisplayItems(p, items) + (")" + k))) == Fail
    decreases items, 5
  {
    var inner := DisplayItems(p, items) + (")" + k);
    ItemsHead(p, items, ")" + k);
    ItemsStuck(p, items, ")" + k);
    BracketStuck("(", inner, ")");
    ByOpener("(" + inner);
  }

  lemma {:induction false} ArrayBroken(p: char -> bool, items: seq<Record>, k: string)
    requires ItemsFloatless(items) && ItemNamesOk(items) && !ItemTextsOk(p, items)
    ensures ParseRecord("[" + (DisplayItems(p, items) + ("]" + k))) == Fail
    decreases items, 5
  {
    var inner := DisplayItems(p, items) + ("]" + k);
    ItemsHead(p, items, "]" + k);
    ItemsStuck(p, items, "]" + k);
    BracketStuck("[", inner, "]");
    ByOpener("[" + inner);
  }

  lemma {:induction false} PosStructBroken(p: char -> bool, name: string, items: seq<Record>, k: string)
    requires IsConstructor(name) && ItemsFloatless(items) && ItemNamesOk(items) && !ItemTextsOk(p, items)
    ensures Broken(ParseRecord(name + ("{" + (DisplayItems(p, items) + ("}" + k)))), k)
    decreases items, 5
  {
    var inner := DisplayItems(p, items) + ("}" + k);
    StructFirst(name, inner);
    ItemsHead(p, items, "}" + k);
    ItemsStuck(p, items, "}" + k);
    Positional(name, inner);
    StructStuck(name, inner);
  }

  lemma {:induction false} NamedStructBroken(p: char -> bool, name: string, fields: seq<(string, Record)>, k: string)
    requires IsConstructor(name) && FieldsFloatless(fields) && FieldNamesOk(fields) && !FieldTextsOk(p, fields)
    ensures Broken(ParseRecord(name + ("{" + (DisplayFields(p, fields) + ("}" + k)))), k)
    decreases fields, 6
  {
    var inner := DisplayFields(p, fields) + ("}" + k);
    StructFirst(name, inner);
    FieldsStuck(p, name, fields, "}" + k);
    StructStuck(name, inner);
  }

  lemma BracketStuck(open: string, inner: string, close: string)
    requires inner != [] && !IsSpace(inner[0]) && Stuck(Items(inner))
    requires (open == "(" && close == ")") || (open == "[" && close == "]")
    ensures open == "(" ==> TupleVal(open + inner) == Fail
    ensures open == "[" ==> ArrayVal(open + inner) == Fail
  {
    SymRead(open, inner);
    TagHead(close, Items(inner).rest);
  }

  lemma StructStuck(name: string, inner: string)
    requires IsIdent(name) && inner != [] && !IsSpace(inner[0]) && Stuck(ConstructorArgs(name, inner))
    ensures StructVal(name + ("{" + inner)) == Done(PosStruct(name, []), "{" + inner)
  {
    IdentRead(name, "{" + inner);
    SymRead("{", inner);
    TagHead("}", ConstructorArgs(name, inner).rest);
    assert Enclosed("{", name, "{" + inner, "}") == Fail;
  }

  /** An opening brace continues no list. */
  lemma NoMore<T>(res: Res<T>)
    ensures res.Done? && res.rest != [] && res.rest[0] == '{' ==>
      MoreItems(res.rest) == Done([], res.rest) && MoreFields(res.rest) == Done([], res.rest)
  {
    if res.Done? && res.rest != [] {
      TagHead(",", res.rest);
    }
  }

  lemma BrokenItems(x: string, k: string)
    requires x != [] && !IsSpace(x[0]) && !IsCloser(x[0]) && Broken(ParseRecord(x), k)
    ensures Stuck(Items(x))
    ensures Stuck(MoreItems(", " + x))
  {
    NoMore(ParseRecord(x));
    CommaRead(x);
  }

  lemma StuckItems(x: string)
    requires x != [] && !IsSpace(x[0]) && ParseRecord(x).Done? && Stuck(MoreItems(ParseRecord(x).rest))
    ensures Stuck(Items(x))
    ensures Stuck(MoreItems(", " + x))
  {
    CommaRead(x);
  }

  lemma {:induction false} ItemsStuck(p: char -> bool, rs: seq<Record>, k: string)
    requires ItemsFloatless(rs) && ItemNamesOk(rs) && !ItemTextsOk(p, rs) && Closer(k)
    ensures Stuck(Items(DisplayItems(p, rs) + k))
    ensures Stuck(MoreItems(ItemTail(p, rs, k)))
    decreases rs, 4
  {
    var tail := ItemTail(p, rs[1..], k);
    var x := DisplayItems(p, rs) + k;
    ItemsSplit(p, rs, k);
    ItemsHead(p, rs, k);
    assert Delimited(tail) && Spaces(tail) == tail;
    if TextsOk(p, rs[0]) {
      RecordRead(p, rs[0], tail);
      ItemsStuck(p, rs[1..], k);
      StuckItems(x);
    } else {
      RecordBroken(p, rs[0], tail);
      BrokenItems(x, tail);
    }
  }

  lemma {:induction false} FieldBroken(p: char -> bool, f: (string, Record), k: string)
    requires FieldFloatless(f) && FieldNameOk(f) && !FieldTextOk(p, f) && Delimited(k)
    ensures Broken(NamedRecord(DisplayField(p, f) + k), k)
    decreases f, 7
  {
    DisplayHead(p, f.1);
    FieldText(f.0, Display(p, f.1), k);
    FieldPrefix(f.0, Display(p, f.1) + k);
    RecordBroken(p, f.1, k);
  }

  lemma NoFields(name: string, x: string)
    requires Unreadable(x) && x[0] == '.' && NamedRecord(x) == Fail
    ensures Stuck(ConstructorArgs(name, x))
    ensures Stuck(MoreFields(", " + x))
  {
    CommaRead(x);
    NoRecord(x);
    assert Items(x) == Done([], x);
    assert NamedArgs(name, x) == Fail && PosArgs(name, x).Done?;
  }

  lemma BrokenFields(name: string, x: string, k: string)
    requires Unreadable(x) && x[0] == '.' && Broken(NamedRecord(x), k)
    ensures Stuck(ConstructorArgs(name, x))
    ensures Stuck(MoreFields(", " + x))
  {
    if NamedRecord(x) == Fail {
      NoFields(name, x);
    } else {
      NoMore(NamedRecord(x));
      CommaRead(x);
    }
  }

  lemma StuckFields(name: string, x: string)
    requires x != [] && !IsSpace(x[0]) && NamedRecord(x).Done? && Stuck(MoreFields(NamedRecord(x).rest))
    ensures Stuck(ConstructorArgs(name, x))
    ensures Stuck(MoreFields(", " + x))
  {
    CommaRead(x);
  }

  lemma {:induction false} FieldsStuck(p: char -> bool, name: string, fs: seq<(string, Record)>, k: string)
    requires FieldsFloatless(fs) && FieldNamesOk(fs) && !FieldTextsOk(p, fs) && Closer(k)
    ensures var x := DisplayFields(p, fs) + k; x != [] && !IsSpace(x[0]) && Stuck(ConstructorArgs(name, x))
    ensures Stuck(MoreFields(FieldTail(p, fs, k)))
    decreases fs, 5
  {
    var tail := FieldTail(p, fs[1..], k);
    var x := DisplayFields(p, fs) + k;
    FieldsSplit(p, fs, k);
    FieldHead(p, fs[0], tail);
    if FieldTextOk(p, fs[0]) {
      FieldRead(p, fs[0], tail);
      FieldsStuck(p, name, fs[1..], k);
      StuckFields(name, x);
    } else {
      FieldBroken(p, fs[0], tail);
      BrokenFields(name, x, tail);
    }
  }

  lemma FieldHead(p: char -> bool, f: (string, Record), k: string)
    requires FieldFloatless(f) && FieldNameOk(f)
    ensures Unreadable(DisplayField(p, f) + k) && (DisplayField(p, f) + k)[0] == '.'
  {
    DisplayHead(p, f.1);
    FieldText(f.0, Display(p, f.1), k);
    FieldPrefix(f.0, Display(p, f.1) + k);
  }

  // ---- the main theorem ------------------------------------------------------------------

  /** A printed record, followed by a delimiter, is read back in normal form and with nothing
      else consumed if and only if its names are identifiers (no constructor beginning with
      `true` or `false`), it holds no serialized value, and every character of its strings has
      an escape that the grammar knows. */
  lemma RecordRoundTrip(p: char -> bool, r: Record, k: string)
    requires Floatless(r) && Delimited(k)
    ensures ParseRecord(Display(p, r) + k) == Done(Norm(r), Spaces(k)) <==> NamesOk(r) && TextsOk(p, r)
  {
    if !NamesOk(r) {
      NormNames(r);
      RecordSound(Display(p, r) + k);
    } else if TextsOk(p, r) {
      RecordRead(p, r, k);
    } else {
      RecordBroken(p, r, k);
    }
  }

  /** A record that the grammar has returned is printed and read again as the same record if and
      only if its strings are readable. */
  lemma RereadExact(p: char -> bool, x: string, k: string)
    requires ParseRecord(x).Done? && Floatless(ParseRecord(x).value) && Delimited(k)
    ensures var r := ParseRecord(x).value; ParseRecord(Display(p, r) + k) == Done(r, Spaces(k)) <==> TextsOk(p, r)
  {
    RecordSound(x);
    RecordRoundTrip(p, ParseRecord(x).value, k);
  }

  /** No serialized value is read back: it is printed with `#`, and the grammar wants `@`. */
  lemma SerializedIsNotReadBack(p: char -> bool, format: string, data: string, k: string)
    ensures ParseRecord(Display(p, Serialized(format, data)) + k) == Fail
  {
    NoRecord(Display(p, Serialized(format, data)) + k);
  }
}
