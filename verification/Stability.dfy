/**
  Prefix stability: once a rule has decided on a partial input, more input does not change its
  decision.  Success keeps its value; the rest is the old rest and the new input, with leading
  white space dropped (a rule's trailing `spaces` may meet white space that had not arrived).
 */
module Stability {
  import opened Stream
  import opened Records
  import opened Parser

  /** `a` is a rule's result on `x`, `b` its result on `x + y`. */
  ghost predicate Stable<T>(a: Res<T>, b: Res<T>, y: string) {
    match a
    case More => true
    case Fail => b == Fail
    case Done(v, r) => b == Done(v, Spaces(r + y))
  }

  /** The same for the rules that read no trailing white space. */
  ghost predicate RawStable<T>(a: Res<T>, b: Res<T>, y: string) {
    match a
    case More => true
    case Fail => b == Fail
    case Done(v, r) => b == Done(v, r + y)
  }

  lemma {:induction false} SpacesCat(x: string, y: string)
    ensures Spaces(x + y) == Spaces(Spaces(x) + y)
    ensures Spaces(x) != [] ==> Spaces(x + y) == Spaces(x) + y
  {
    if x == [] {
      assert x + y == y;
      SpacesIdem(y);
    } else {
      assert (x + y)[1..] == x[1..] + y;
      if IsSpace(x[0]) {
        SpacesCat(x[1..], y);
      }
    }
  }

  lemma {:induction false} SpacesIdem(x: string)
    ensures Spaces(Spaces(x)) == Spaces(x)
  {
    if x != [] && IsSpace(x[0]) {
      SpacesIdem(x[1..]);
    }
  }

  /** A rest that is not empty just grows. */
  lemma Grow(r: string, y: string)
    requires Stripped(r)
    ensures r != [] ==> Spaces(r + y) == r + y
  {
  }

  lemma TagStable(s: string, x: string, y: string)
    requires s != []
    ensures RawStable(Tag(s, x), Tag(s, x + y), y)
  {
    if s <= x {
      assert (x + y)[|s|..] == x[|s|..] + y;
    } else if !(x <= s) {
      if |x| >= |s| {
        assert (x + y)[..|s|] == x[..|s|];
      } else {
        assert s[..|x|] != x && (x + y)[..|x|] == x;
      }
    }
  }

  lemma SymStable(s: string, x: string, y: string)
    requires s != []
    ensures Stable(Sym(s, x), Sym(s, x + y), y)
  {
    TagStable(s, x, y);
    if Tag(s, x).Done? {
      SpacesCat(Tag(s, x).rest, y);
    }
  }

  lemma {:induction false} RunStable(p: char -> bool, x: string, y: string)
    ensures RawStable(Run(p, x), Run(p, x + y), y)
  {
    if x != [] {
      assert (x + y)[1..] == x[1..] + y;
      RunStable(p, x[1..], y);
    }
  }

  lemma Run1Stable(p: char -> bool, x: string, y: string)
    ensures RawStable(Run1(p, x), Run1(p, x + y), y)
  {
    RunStable(p, x, y);
  }

  lemma {:induction false} IdentTailStable(x: string, y: string)
    ensures RawStable(IdentTail(x), IdentTail(x + y), y)
  {
    if x != [] && x != ":" {
      assert (x + y)[1..] == x[1..] + y;
      if IsIdChar(x[0]) {
        IdentTailStable(x[1..], y);
      } else if x[0] == ':' && x[1] == ':' {
        assert (x + y)[2..] == x[2..] + y && (x + y)[..2] == x[..2];
        IdentTailStable(x[2..], y);
      }
    }
  }

  lemma IdentStable(x: string, y: string)
    ensures Stable(Ident(x), Ident(x + y), y)
  {
    if x != [] {
      assert (x + y)[1..] == x[1..] + y;
      IdentTailStable(x[1..], y);
      if IdentTail(x[1..]).Done? {
        SpacesCat(IdentTail(x[1..]).rest, y);
      }
    }
  }

  lemma {:induction false} StrBodyStable(x: string, y: string)
    ensures RawStable(StrBody(x), StrBody(x + y), y)
  {
    if x != [] && x != "\\" {
      assert (x + y)[1..] == x[1..] + y;
      if x[0] == '\"' {
      } else if x[0] == '\\' {
        assert (x + y)[2..] == x[2..] + y;
        StrBodyStable(x[2..], y);
      } else {
        StrBodyStable(x[1..], y);
      }
    }
  }

  lemma StrLitStable(x: string, y: string)
    ensures Stable(StrLit(x), StrLit(x + y), y)
  {
    TagStable("\"\"", x, y);
    TagStable("\"", x, y);
    if Tag("\"", x).Done? {
      StrBodyStable(Tag("\"", x).rest, y);
    }
    var r := Alt(EmptyLit(x), QuotedLit(x));
    if r.Done? {
      SpacesCat(r.rest, y);
    }
  }

  lemma NumberStable(p: char -> bool, base: Base, x: string, y: string)
    requires forall c :: p(c) ==> IsHexDigit(c)
    ensures Stable(Number(p, base, x), Number(p, base, x + y), y)
  {
    Run1Stable(p, x, y);
    if Run1(p, x).Done? {
      var q := c => p(c) || c == '_';
      var r := Run1(p, x).rest;
      RunStable(q, r, y);
      assert Run(q, r + y) == Run(q, Run1(p, x + y).rest);
      if Run(q, r).Done? {
        SpacesCat(Run(q, r).rest, y);
      }
    }
  }

  lemma HexTagStable(x: string, y: string)
    ensures RawStable(HexTag(x), HexTag(x + y), y)
  {
    TagStable("0x", x, y);
    TagStable("0X", x, y);
  }

  lemma HexValStable(x: string, y: string)
    ensures Stable(HexVal(x), HexVal(x + y), y)
  {
    HexTagStable(x, y);
    if HexTag(x).Done? {
      NumberStable(IsHexDigit, 16, HexTag(x).rest, y);
    }
  }

  lemma NegValStable(x: string, y: string)
    ensures Stable(NegVal(x), NegVal(x + y), y)
  {
    SymStable("-", x, y);
    if Sym("-", x).Done? {
      var r := Sym("-", x).rest;
      Grow(r, y);
      HexValStable(r, y);
      NumberStable(IsDigit, 10, r, y);
    }
  }

  lemma BigintStable(x: string, y: string)
    ensures Stable(BigintVal(x), BigintVal(x + y), y)
  {
    HexValStable(x, y);
    NumberStable(IsDigit, 10, x, y);
    NegValStable(x, y);
  }

  lemma OptSignStable(x: string, y: string)
    ensures RawStable(OptSign(x), OptSign(x + y), y)
  {
    TagStable("+", x, y);
    TagStable("-", x, y);
  }

  lemma ExponentStable(x: string, y: string)
    ensures RawStable(Exponent(x), Exponent(x + y), y)
  {
    TagStable("e", x, y);
    TagStable("E", x, y);
    var a := Alt(Tag("e", x), Tag("E", x));
    if a.Done? {
      OptSignStable(a.rest, y);
      if OptSign(a.rest).Done? {
        Run1Stable(IsDigit, OptSign(a.rest).rest, y);
      }
    }
  }

  lemma OptExponentStable(x: string, y: string)
    ensures RawStable(Opt(Exponent(x), x), Opt(Exponent(x + y), x + y), y)
  {
    ExponentStable(x, y);
  }

  lemma FractionStable(x: string, y: string)
    ensures RawStable(Fraction(x), Fraction(x + y), y)
  {
    TagStable(".", x, y);
    if Tag(".", x).Done? {
      var r1 := Tag(".", x).rest;
      Run1Stable(IsDigit, r1, y);
      var o := Opt(Run1(IsDigit, r1), r1);
      if o.Done? {
        OptExponentStable(o.rest, y);
      }
    }
  }

  lemma DigitsFirstStable(x: string, y: string)
    ensures RawStable(DigitsFirst(x), DigitsFirst(x + y), y)
  {
    Run1Stable(IsDigit, x, y);
    if Run1(IsDigit, x).Done? {
      FractionStable(Run1(IsDigit, x).rest, y);
      ExponentStable(Run1(IsDigit, x).rest, y);
    }
  }

  lemma PointFirstStable(x: string, y: string)
    ensures RawStable(PointFirst(x), PointFirst(x + y), y)
  {
    TagStable(".", x, y);
    if Tag(".", x).Done? {
      var r1 := Tag(".", x).rest;
      Run1Stable(IsDigit, r1, y);
      if Run1(IsDigit, r1).Done? {
        OptExponentStable(Run1(IsDigit, r1).rest, y);
      }
    }
  }

  lemma AfterSign(x: string, y: string)
    ensures var a, b := OptSign(x), OptSign(x + y);
      && RawStable(a, b, y)
      && (a.Done? ==>
        RawStable(Alt(DigitsFirst(a.rest), PointFirst(a.rest)), Alt(DigitsFirst(b.rest), PointFirst(b.rest)), y))
  {
    OptSignStable(x, y);
    if OptSign(x).Done? {
      DigitsFirstStable(OptSign(x).rest, y);
      PointFirstStable(OptSign(x).rest, y);
    }
  }

  lemma RecognizeFloatStable(x: string, y: string)
    ensures RawStable(RecognizeFloat(x), RecognizeFloat(x + y), y)
  {
    AfterSign(x, y);
    if OptSign(x).Done? {
      var a := Alt(DigitsFirst(OptSign(x).rest), PointFirst(OptSign(x).rest));
      if a.Done? {
        SameText(x, y, |x| - |a.rest|);
      }
    }
  }

  lemma SameText(x: string, y: string, n: int)
    requires 0 <= n <= |x|
    ensures (x + y)[..n] == x[..n]
  {
  }

  lemma FloatValStable(x: string, y: string)
    ensures Stable(FloatVal(x), FloatVal(x + y), y)
  {
    RecognizeFloatStable(x, y);
    if RecognizeFloat(x).Done? {
      SpacesCat(RecognizeFloat(x).rest, y);
    }
  }

  lemma KeywordStable<T>(s: string, x: string, v: T, y: string)
    requires s != []
    ensures Stable(Keyword(s, x, v), Keyword(s, x + y, v), y)
  {
    SymStable(s, x, y);
  }

  lemma SerializedStable(x: string, y: string)
    ensures Stable(SerializedVal(x), SerializedVal(x + y), y)
  {
    TagStable("@", x, y);
    if Tag("@", x).Done? {
      var r1 := Tag("@", x).rest;
      IdentStable(r1, y);
      if Ident(r1).Done? {
        Grow(Ident(r1).rest, y);
        StrLitStable(Ident(r1).rest, y);
      }
    }
  }

  // ---- records ---------------------------------------------------------------------------

  lemma {:induction false} RecordStable(x: string, y: string)
    ensures Stable(ParseRecord(x), ParseRecord(x + y), y)
    decreases |x|, 2
  {
    KeywordStable("true", x, Bool(true), y);
    KeywordStable("false", x, Bool(false), y);
    StrLitStable(x, y);
    SerializedStable(x, y);
    TupleStable(x, y);
    ArrayStable(x, y);
    StructStable(x, y);
    FloatValStable(x, y);
    BigintStable(x, y);
  }

  lemma {:induction false} TupleStable(x: string, y: string)
    ensures Stable(TupleVal(x), TupleVal(x + y), y)
    decreases |x|, 1
  {
    SymStable("(", x, y);
    if Sym("(", x).Done? {
      var r1 := Sym("(", x).rest;
      Grow(r1, y);
      ItemsStable(r1, y);
      if Items(r1).Done? {
        Grow(Items(r1).rest, y);
        SymStable(")", Items(r1).rest, y);
      }
    }
  }

  lemma {:induction false} ArrayStable(x: string, y: string)
    ensures Stable(ArrayVal(x), ArrayVal(x + y), y)
    decreases |x|, 1
  {
    SymStable("[", x, y);
    if Sym("[", x).Done? {
      var r1 := Sym("[", x).rest;
      Grow(r1, y);
      ItemsStable(r1, y);
      if Items(r1).Done? {
        Grow(Items(r1).rest, y);
        SymStable("]", Items(r1).rest, y);
      }
    }
  }

  lemma {:induction false} StructStable(x: string, y: string)
    ensures Stable(StructVal(x), StructVal(x + y), y)
    decreases |x|, 1
  {
    IdentStable(x, y);
    if Ident(x).Done? {
      Grow(Ident(x).rest, y);
      EnclosedStable("{", Ident(x).value, Ident(x).rest, "}", y);
    }
  }

  lemma {:induction false} EnclosedStable(open: string, name: string, x: string, close: string, y: string)
    requires open != [] && close != []
    ensures Stable(Enclosed(open, name, x, close), Enclosed(open, name, x + y, close), y)
    decreases |x|, 1
  {
    SymStable(open, x, y);
    if Sym(open, x).Done? {
      var r1 := Sym(open, x).rest;
      Grow(r1, y);
      ArgsStable(name, r1, y);
      if ConstructorArgs(name, r1).Done? {
        Grow(ConstructorArgs(name, r1).rest, y);
        SymStable(close, ConstructorArgs(name, r1).rest, y);
      }
    }
  }

  lemma {:induction false} ArgsStable(name: string, x: string, y: string)
    requires Stripped(x)
    ensures Stable(ConstructorArgs(name, x), ConstructorArgs(name, x + y), y)
    decreases |x|, 5
  {
    NamedArgsStable(name, x, y);
    ItemsStable(x, y);
    assert Stable(PosArgs(name, x), PosArgs(name, x + y), y);
  }

  lemma {:induction false} NamedArgsStable(name: string, x: string, y: string)
    ensures Stable(NamedArgs(name, x), NamedArgs(name, x + y), y)
    decreases |x|, 4
  {
    NamedRecordStable(x, y);
    if NamedRecord(x).Done? {
      Grow(NamedRecord(x).rest, y);
      MoreFieldsStable(NamedRecord(x).rest, y);
    }
  }

  lemma {:induction false} NamedRecordStable(x: string, y: string)
    ensures Stable(NamedRecord(x), NamedRecord(x + y), y)
    decreases |x|, 2
  {
    SymStable(".", x, y);
    if Sym(".", x).Done? {
      var r1 := Sym(".", x).rest;
      Grow(r1, y);
      IdentStable(r1, y);
      if Ident(r1).Done? {
        var r2 := Ident(r1).rest;
        Grow(r2, y);
        SymStable("=", r2, y);
        if Sym("=", r2).Done? {
          Grow(Sym("=", r2).rest, y);
          RecordStable(Sym("=", r2).rest, y);
        }
      }
    }
  }

  lemma {:induction false} ItemsStable(x: string, y: string)
    requires Stripped(x)
    ensures Stable(Items(x), Items(x + y), y)
    decreases |x|, 3
  {
    RecordStable(x, y);
    Grow(x, y);
    if ParseRecord(x).Done? {
      Grow(ParseRecord(x).rest, y);
      MoreItemsStable(ParseRecord(x).rest, y);
    }
  }

  lemma {:induction false} MoreItemsStable(x: string, y: string)
    requires Stripped(x)
    ensures Stable(MoreItems(x), MoreItems(x + y), y)
    decreases |x|, 3
  {
    SymStable(",", x, y);
    Grow(x, y);
    if Sym(",", x).Done? {
      var r1 := Sym(",", x).rest;
      Grow(r1, y);
      RecordStable(r1, y);
      if ParseRecord(r1).Done? {
        Grow(ParseRecord(r1).rest, y);
        MoreItemsStable(ParseRecord(r1).rest, y);
      }
    }
  }

  lemma {:induction false} MoreFieldsStable(x: string, y: string)
    requires Stripped(x)
    ensures Stable(MoreFields(x), MoreFields(x + y), y)
    decreases |x|, 3
  {
    SymStable(",", x, y);
    Grow(x, y);
    if Sym(",", x).Done? {
      var r1 := Sym(",", x).rest;
      Grow(r1, y);
      NamedRecordStable(r1, y);
      if NamedRecord(r1).Done? {
        Grow(NamedRecord(r1).rest, y);
        MoreFieldsStable(NamedRecord(r1).rest, y);
      }
    }
  }

  // ---- updates and commands --------------------------------------------------------------

  lemma RelRecordStable(x: string, y: string)
    ensures Stable(RelRecord(x), RelRecord(x + y), y)
  {
    IdentStable(x, y);
    if Ident(x).Done? {
      var r1 := Ident(x).rest;
      Grow(r1, y);
      BracketedStable(r1, y);
      EnclosedStable("(", Ident(x).value, r1, ")", y);
    }
  }

  lemma BracketedStable(x: string, y: string)
    ensures Stable(Bracketed(x), Bracketed(x + y), y)
  {
    SymStable("[", x, y);
    if Sym("[", x).Done? {
      var r1 := Sym("[", x).rest;
      Grow(r1, y);
      RecordStable(r1, y);
      if ParseRecord(r1).Done? {
        Grow(ParseRecord(r1).rest, y);
        SymStable("]", ParseRecord(r1).rest, y);
      }
    }
  }

  lemma RelKeyStable(x: string, y: string)
    ensures Stable(RelKey(x), RelKey(x + y), y)
  {
    IdentStable(x, y);
    if Ident(x).Done? {
      Grow(Ident(x).rest, y);
      RecordStable(Ident(x).rest, y);
    }
  }

  /** A keyword and what follows it. */
  lemma AfterKeyword(s: string, x: string, y: string)
    requires s != []
    ensures Stable(Sym(s, x), Sym(s, x + y), y)
    ensures Sym(s, x).Done? && Sym(s, x).rest != [] ==> Sym(s, x + y) == Done((), Sym(s, x).rest + y)
  {
    SymStable(s, x, y);
    if Sym(s, x).Done? {
      Grow(Sym(s, x).rest, y);
    }
  }

  lemma ModifyStable(x: string, y: string)
    ensures Stable(ModifyUpd(x), ModifyUpd(x + y), y)
  {
    AfterKeyword("modify", x, y);
    if Sym("modify", x).Done? {
      var r1 := Sym("modify", x).rest;
      RelKeyStable(r1, y);
      if RelKey(r1).Done? {
        var r2 := RelKey(r1).rest;
        Grow(r2, y);
        AfterKeyword("<-", r2, y);
        if Sym("<-", r2).Done? {
          RecordStable(Sym("<-", r2).rest, y);
        }
      }
    }
  }

  /** A keyword and a relation with a record: `insert`, `insert_or_update` and `delete`. */
  lemma KeywordRecordStable(word: string, x: string, y: string)
    requires word != []
    ensures Stable(Sym(word, x), Sym(word, x + y), y)
    ensures Sym(word, x).Done? && Sym(word, x).rest != [] ==>
      && Sym(word, x + y) == Done((), Sym(word, x).rest + y)
      && Stable(RelRecord(Sym(word, x).rest), RelRecord(Sym(word, x + y).rest), y)
  {
    AfterKeyword(word, x, y);
    if Sym(word, x).Done? {
      RelRecordStable(Sym(word, x).rest, y);
    }
  }

  lemma InsertStable(x: string, y: string)
    ensures Stable(InsertUpd(x), InsertUpd(x + y), y)
    ensures Stable(InsertOrUpdateUpd(x), InsertOrUpdateUpd(x + y), y)
  {
    KeywordRecordStable("insert", x, y);
    KeywordRecordStable("insert_or_update", x, y);
  }

  lemma DeleteStable(x: string, y: string)
    ensures Stable(DeleteUpd(x), DeleteUpd(x + y), y)
    ensures Stable(DeleteKeyUpd(x), DeleteKeyUpd(x + y), y)
  {
    KeywordRecordStable("delete", x, y);
    AfterKeyword("delete_key", x, y);
    if Sym("delete_key", x).Done? {
      RelKeyStable(Sym("delete_key", x).rest, y);
    }
  }

  lemma UpdateStable(x: string, y: string)
    ensures Stable(ParseUpdate(x), ParseUpdate(x + y), y)
  {
    InsertStable(x, y);
    DeleteStable(x, y);
    ModifyStable(x, y);
  }

  lemma PlainStable(word: string, c: Command, x: string, y: string)
    requires word != []
    ensures Stable(Plain(word, c, x), Plain(word, c, x + y), y)
  {
    AfterKeyword(word, x, y);
    if Sym(word, x).Done? {
      SymStable(";", Sym(word, x).rest, y);
    }
  }

  lemma CommitStable(x: string, y: string)
    ensures Stable(CommitCmd(x), CommitCmd(x + y), y)
  {
    AfterKeyword("commit", x, y);
    if Sym("commit", x).Done? {
      var r1 := Sym("commit", x).rest;
      AfterKeyword("dump_changes", r1, y);
      var o := Opt(Sym("dump_changes", r1), r1);
      if o.Done? {
        SymStable(";", o.rest, y);
      }
    }
  }

  lemma CommentStable(x: string, y: string)
    ensures Stable(CommentCmd(x), CommentCmd(x + y), y)
  {
    AfterKeyword("#", x, y);
    if Sym("#", x).Done? {
      var r1 := Sym("#", x).rest;
      RunStable(d => d != '\n', r1, y);
      assert RawStable(TakeUntil('\n', r1), TakeUntil('\n', r1 + y), y);
      if TakeUntil('\n', r1).Done? {
        SymStable("\n", TakeUntil('\n', r1).rest, y);
      }
    }
  }

  lemma ProfileStable(word: string, x: string, y: string)
    requires word != []
    ensures Stable(ProfileCommand(word, x), ProfileCommand(word, x + y), y)
  {
    AfterKeyword("profile", x, y);
    if Sym("profile", x).Done? {
      var r1 := Sym("profile", x).rest;
      AfterKeyword(word, r1, y);
      if Sym(word, r1).Done? {
        SymStable("on", Sym(word, r1).rest, y);
        SymStable("off", Sym(word, r1).rest, y);
      }
      var o := Opt(Switch(word, r1), r1);
      if o.Done? {
        Grow(o.rest, y);
        SymStable(";", o.rest, y);
      }
    }
  }

  lemma DumpStable(x: string, y: string)
    ensures Stable(DumpCmd(x), DumpCmd(x + y), y)
  {
    AfterKeyword("dump", x, y);
    if Sym("dump", x).Done? {
      var r1 := Sym("dump", x).rest;
      IdentStable(r1, y);
      var o := Opt(Ident(r1), r1);
      if o.Done? {
        Grow(o.rest, y);
        SymStable(";", o.rest, y);
      }
    }
  }

  /** `word identifier ;`, the shape of `clear` and `dump_index`. */
  lemma NamedStable(word: string, x: string, y: string)
    requires word != []
    ensures var a, b := Sym(word, x), Sym(word, x + y);
      a.Done? && a.rest != [] && Ident(a.rest).Done? && Ident(a.rest).rest != [] ==>
        && b == Done((), a.rest + y)
        && Ident(b.rest) == Done(Ident(a.rest).value, Ident(a.rest).rest + y)
        && Stable(Sym(";", Ident(a.rest).rest), Sym(";", Ident(b.rest).rest), y)
  {
    AfterKeyword(word, x, y);
    if Sym(word, x).Done? {
      var r1 := Sym(word, x).rest;
      IdentStable(r1, y);
      if Ident(r1).Done? {
        Grow(Ident(r1).rest, y);
        SymStable(";", Ident(r1).rest, y);
      }
    }
  }

  lemma ClearStable(x: string, y: string)
    ensures Stable(ClearCmd(x), ClearCmd(x + y), y)
  {
    AfterKeyword("clear", x, y);
    NamedStable("clear", x, y);
    if Sym("clear", x).Done? {
      IdentStable(Sym("clear", x).rest, y);
    }
  }

  lemma DumpIndexStable(x: string, y: string)
    ensures Stable(DumpIndexCmd(x), DumpIndexCmd(x + y), y)
  {
    AfterKeyword("dump_index", x, y);
    NamedStable("dump_index", x, y);
    if Sym("dump_index", x).Done? {
      IdentStable(Sym("dump_index", x).rest, y);
    }
  }

  lemma NumberedStable(x: string, y: string)
    ensures Stable(SleepCmd(x), SleepCmd(x + y), y)
    ensures Stable(LogLevelCmd(x), LogLevelCmd(x + y), y)
  {
    AfterKeyword("mssleep", x, y);
    if Sym("mssleep", x).Done? {
      var r := Sym("mssleep", x).rest;
      NumberStable(IsDigit, 10, r, y);
      if DecVal(r).Done? {
        Grow(DecVal(r).rest, y);
        SymStable(";", DecVal(r).rest, y);
      }
    }
    AfterKeyword("log_level", x, y);
    if Sym("log_level", x).Done? {
      var r := Sym("log_level", x).rest;
      BigintStable(r, y);
      if BigintVal(r).Done? {
        Grow(BigintVal(r).rest, y);
        SymStable(";", BigintVal(r).rest, y);
      }
    }
  }

  lemma EchoStable(x: string, y: string)
    ensures Stable(EchoCmd(x), EchoCmd(x + y), y)
  {
    AfterKeyword("echo", x, y);
    if Sym("echo", x).Done? {
      var r1 := Sym("echo", x).rest;
      RunStable(d => d != ';', r1, y);
      assert RawStable(TakeUntil(';', r1), TakeUntil(';', r1 + y), y);
      if TakeUntil(';', r1).Done? {
        SymStable(";", TakeUntil(';', r1).rest, y);
      }
    }
  }

  lemma QueryIndexStable(x: string, y: string)
    ensures Stable(QueryIndexCmd(x), QueryIndexCmd(x + y), y)
  {
    AfterKeyword("query_index", x, y);
    if Sym("query_index", x).Done? {
      var r1 := Sym("query_index", x).rest;
      IdentStable(r1, y);
      if Ident(r1).Done? {
        var r2 := Ident(r1).rest;
        Grow(r2, y);
        AfterKeyword("(", r2, y);
        if Sym("(", r2).Done? {
          var r3 := Sym("(", r2).rest;
          ItemsStable(r3, y);
          if Items(r3).Done? {
            var r4 := Items(r3).rest;
            Grow(r4, y);
            AfterKeyword(")", r4, y);
            if Sym(")", r4).Done? {
              SymStable(";", Sym(")", r4).rest, y);
            }
          }
        }
      }
    }
  }

  lemma UpdateCmdStable(x: string, y: string)
    ensures Stable(UpdateCmd(x), UpdateCmd(x + y), y)
  {
    UpdateStable(x, y);
    if ParseUpdate(x).Done? {
      var r := ParseUpdate(x).rest;
      Grow(r, y);
      SymStable(";", r, y);
      SymStable(",", r, y);
    }
  }

  lemma Commands1Stable(x: string, y: string)
    ensures Stable(Commands1(x), Commands1(x + y), y)
  {
    PlainStable("start", Start, x, y);
    CommitStable(x, y);
    PlainStable("timestamp", Timestamp, x, y);
    CommentStable(x, y);
    ProfileStable("cpu", x, y);
    ProfileStable("change", x, y);
    ProfileStable("timely", x, y);
    DumpStable(x, y);
  }

  lemma Commands2Stable(x: string, y: string)
    ensures Stable(Commands2(x), Commands2(x + y), y)
  {
    ClearStable(x, y);
    NumberedStable(x, y);
    PlainStable("exit", Exit, x, y);
    EchoStable(x, y);
    PlainStable("rollback", Rollback, x, y);
    QueryIndexStable(x, y);
    DumpIndexStable(x, y);
    UpdateCmdStable(x, y);
  }

  /** The parser of the whole command language is prefix stable. */
  lemma CommandStable(x: string, y: string)
    ensures Stable(ParseCommand(x), ParseCommand(x + y), y)
  {
    SpacesCat(x, y);
    if Spaces(x) != [] {
      Commands1Stable(Spaces(x), y);
      Commands2Stable(Spaces(x), y);
    }
  }
}
