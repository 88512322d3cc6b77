/**
  Reading back what the program prints: `Display` for records (record/mod.rs) against the
  command grammar (parse.rs).  The two disagree on serialized values and on characters that
  Rust writes as `\u{..}` or `\0`; the main theorem says exactly when a printed record is read
  back, and the converse covers every other record.
 */
module RoundTrip {
  import opened Stream
  import opened Wrappers
  import opened Records
  import opened Parser

  // ---- what can be read back -------------------------------------------------------------

  predicate IdentBody(s: string) {
    || s == []
    || (IsIdChar(s[0]) && IdentBody(s[1..]))
    || (|s| >= 2 && s[0] == ':' && s[1] == ':' && IdentBody(s[2..]))
  }

  /** Identifiers of the command language, `NB::Logical_Router` included. */
  predicate IsIdent(s: string) {
    s != [] && (IsAlpha(s[0]) || s[0] == '_') && IdentBody(s[1..])
  }

  /** A constructor name must also not begin with a Boolean, which is tried first. */
  predicate IsConstructor(s: string) {
    IsIdent(s) && !("true" <= s) && !("false" <= s)
  }

  predicate NamesOk(r: Record)
    decreases r, 1
  {
    match r
    case Serialized(format, _) => IsIdent(format)
    case Tuple(items) => ItemNamesOk(items)
    case Array(_, items) => ItemNamesOk(items)
    case PosStruct(name, items) => IsConstructor(name) && ItemNamesOk(items)
    case NamedStruct(name, fields) => IsConstructor(name) && FieldNamesOk(fields)
    case _ => true
  }

  predicate ItemNamesOk(rs: seq<Record>)
    decreases rs, 0
  {
    rs != [] ==> NamesOk(rs[0]) && ItemNamesOk(rs[1..])
  }

  predicate FieldNameOk(f: (string, Record))
    decreases f, 0
  {
    IsIdent(f.0) && NamesOk(f.1)
  }

  predicate FieldNamesOk(fs: seq<(string, Record)>)
    decreases fs, 0
  {
    fs != [] ==> FieldNameOk(fs[0]) && FieldNamesOk(fs[1..])
  }

  /** A character that is printed as itself or with an escape the grammar knows. */
  predicate Readable(p: char -> bool, c: char) {
    c == '\t' || c == '\r' || c == '\n' || c == '\"' || c == '\\' || Printable(p, c)
  }

  predicate TextOk(p: char -> bool, s: string) {
    s != [] ==> Readable(p, s[0]) && TextOk(p, s[1..])
  }

  predicate TextsOk(p: char -> bool, r: Record)
    decreases r, 1
  {
    match r
    case Str(s) => TextOk(p, s)
    case Serialized(_, _) => false
    case Tuple(items) => ItemTextsOk(p, items)
    case Array(_, items) => ItemTextsOk(p, items)
    case PosStruct(_, items) => ItemTextsOk(p, items)
    case NamedStruct(_, fields) => FieldTextsOk(p, fields)
    case _ => true
  }

  predicate ItemTextsOk(p: char -> bool, rs: seq<Record>)
    decreases rs, 0
  {
    rs != [] ==> TextsOk(p, rs[0]) && ItemTextsOk(p, rs[1..])
  }

  predicate FieldTextOk(p: char -> bool, f: (string, Record))
    decreases f, 0
  {
    TextsOk(p, f.1)
  }

  predicate FieldTextsOk(p: char -> bool, fs: seq<(string, Record)>)
    decreases fs, 0
  {
    fs != [] ==> FieldTextOk(p, fs[0]) && FieldTextsOk(p, fs[1..])
  }

  predicate Floatless(r: Record)
    decreases r, 1
  {
    match r
    case Double(_) => false
    case Tuple(items) => ItemsFloatless(items)
    case Array(_, items) => ItemsFloatless(items)
    case PosStruct(_, items) => ItemsFloatless(items)
    case NamedStruct(_, fields) => FieldsFloatless(fields)
    case _ => true
  }

  predicate ItemsFloatless(rs: seq<Record>)
    decreases rs, 0
  {
    rs != [] ==> Floatless(rs[0]) && ItemsFloatless(rs[1..])
  }

  predicate FieldFloatless(f: (string, Record))
    decreases f, 0
  {
    Floatless(f.1)
  }

  predicate FieldsFloatless(fs: seq<(string, Record)>)
    decreases fs, 0
  {
    fs != [] ==> FieldFloatless(fs[0]) && FieldsFloatless(fs[1..])
  }

  predicate IsCloser(c: char) {
    c == ')' || c == ']' || c == '}'
  }

  /** What may follow a printed record: white space or closing punctuation. */
  predicate Delimited(k: string) {
    k != [] && (IsSpace(k[0]) || k[0] == ',' || k[0] == ';' || IsCloser(k[0]))
  }

  // ---- lexical rules ---------------------------------------------------------------------

  /** Only leading white space is dropped, and all of it. */
  lemma {:induction false} SpacesExact(x: string)
    ensures var n := |x| - |Spaces(x)|;
      && n >= 0 && Spaces(x) == x[n..]
      && (forall i :: 0 <= i < n ==> IsSpace(x[i]))
      && (n < |x| ==> !IsSpace(x[n]))
  {
    if x != [] && IsSpace(x[0]) {
      SpacesExact(x[1..]);
      var n := |x| - |Spaces(x)|;
      assert forall i :: 0 < i < n ==> x[i] == x[1..][i - 1];
    }
  }

  lemma TagHead(s: string, x: string)
    requires s != [] && x != []
    ensures s[0] != x[0] ==> Tag(s, x) == Fail && Sym(s, x) == Fail
    ensures |s| == 1 && s[0] == x[0] ==> Tag(s, x) == Done((), x[1..]) && Sym(s, x) == Done((), Spaces(x[1..]))
  {
    if |s| == 1 && s[0] == x[0] {
      assert s == x[..1];
    }
  }

  /** A keyword and any text after it. */
  lemma SymRead(s: string, k: string)
    requires s != []
    ensures Sym(s, s + k) == Done((), Spaces(k))
  {
    assert (s + k)[|s|..] == k;
  }

  /** Two texts that differ at `i`. */
  lemma TagDiffers(s: string, x: string, i: nat)
    requires i < |s| && i < |x| && s[i] != x[i]
    ensures Tag(s, x) == Fail && Sym(s, x) == Fail
  {
  }

  /** Text that cannot continue an identifier, and shows it. */
  predicate EndsIdent(k: string) {
    k != [] && !IsIdChar(k[0]) && (k[0] == ':' ==> |k| > 1 && k[1] != ':')
  }

  lemma {:induction false} IdentTailRead(n: string, k: string)
    requires IdentBody(n) && EndsIdent(k)
    ensures IdentTail(n + k) == Done(n, k)
  {
    if n == [] {
      assert n + k == k;
    } else if IsIdChar(n[0]) {
      assert (n + k)[1..] == n[1..] + k && [n[0]] + n[1..] == n;
      IdentTailRead(n[1..], k);
    } else {
      assert (n + k)[2..] == n[2..] + k && (n + k)[..2] == n[..2] && n[..2] + n[2..] == n;
      IdentTailRead(n[2..], k);
    }
  }

  lemma IdentRead(n: string, k: string)
    requires IsIdent(n) && EndsIdent(k)
    ensures Ident(n + k) == Done(n, Spaces(k))
  {
    assert (n + k)[1..] == n[1..] + k && [n[0]] + n[1..] == n;
    IdentTailRead(n[1..], k);
  }

  /** Identifiers are all that the identifier rule returns. */
  lemma {:induction false} IdentTailSound(x: string)
    ensures IdentTail(x).Done? ==> IdentBody(IdentTail(x).value)
  {
    if x != [] && x != ":" {
      if IsIdChar(x[0]) {
        IdentTailSound(x[1..]);
      } else if x[0] == ':' && x[1] == ':' {
        IdentTailSound(x[2..]);
        if IdentTail(x[2..]).Done? {
          var v := IdentTail(x[2..]).value;
          assert (x[..2] + v)[2..] == v;
        }
      }
    }
  }

  lemma IdentSound(x: string)
    ensures Ident(x).Done? ==> IsIdent(Ident(x).value)
  {
    if x != [] {
      IdentTailSound(x[1..]);
    }
  }

  // ---- strings ---------------------------------------------------------------------------

  function Prepend(c: char, r: Res<string>): Res<string> {
    match r
    case Done(v, rest) => Done([c] + v, rest)
    case Fail => Fail
    case More => More
  }

  lemma PlainStep(c: char, t: string)
    requires c != '\"' && c != '\\'
    ensures StrBody([c] + t) == Prepend(c, StrBody(t))
  {
    assert ([c] + t)[1..] == t;
  }

  lemma EscapedStep(l: char, t: string)
    ensures Unescape(l).None? ==> StrBody(['\\', l] + t) == Fail
    ensures Unescape(l).Some? ==> StrBody(['\\', l] + t) == Prepend(Unescape(l).value, StrBody(t))
  {
    assert (['\\', l] + t)[2..] == t;
  }

  lemma UnicodeStep(u: string, t: string)
    requires |u| > 2 && u[..2] == "\\u"
    ensures StrBody(u + t) == Fail
  {
    assert u[0] == u[..2][0] && u[1] == u[..2][1];
    assert u + t == ['\\', 'u'] + (u[2..] + t);
    EscapedStep('u', u[2..] + t);
  }

  /** The short escapes of the printer are known to the grammar, all but that of the zero byte. */
  lemma LetterKnown(c: char)
    requires Letter(c).Some?
    ensures Unescape(Letter(c).value) == (if c == '\U{00}' then None else Some(c))
  {
  }

  /** What one escaped character is read as. */
  lemma StrBodyStep(p: char -> bool, c: char, t: string)
    ensures StrBody(EscapeChar(p, c) + t) == if Readable(p, c) then Prepend(c, StrBody(t)) else Fail
  {
    if c == '\'' {
      PlainStep(c, t);
    } else if Letter(c).Some? {
      LetterKnown(c);
      EscapedStep(Letter(c).value, t);
    } else if Printable(p, c) {
      PlainStep(c, t);
    } else {
      UnicodeStep(UnicodeEscape(c), t);
    }
  }

  lemma {:induction false} EscapeRead(p: char -> bool, s: string, k: string)
    ensures StrBody(Escape(p, s) + ("\"" + k)) == if TextOk(p, s) then Done(s, k) else Fail
  {
    var rest := "\"" + k;
    assert rest[0] == '\"' && rest[1..] == k;
    if s == [] {
      assert Escape(p, s) + rest == rest;
      assert StrBody(rest) == Done("", k) && TextOk(p, s);
    } else {
      var t := Escape(p, s[1..]) + rest;
      ThreeTexts(EscapeChar(p, s[0]), Escape(p, s[1..]), rest);
      EscapeRead(p, s[1..], k);
      StrBodyStep(p, s[0], t);
      assert [s[0]] + s[1..] == s;
    }
  }

  lemma EscapeHead(p: char -> bool, s: string)
    requires s != []
    ensures Escape(p, s) != [] && Escape(p, s)[0] != '\"'
  {
  }

  lemma EmptyLitRead(k: string)
    ensures StrLit("\"\"" + k) == Done("", Spaces(k))
  {
    assert ("\"\"" + k)[2..] == k;
  }

  /** A literal that is not empty is read by the rule for quoted text. */
  lemma QuotedRead(x: string, body: string)
    requires x == "\"" + body && body != [] && body[0] != '\"'
    ensures StrLit(x) == match StrBody(body) case Done(v, r) => Done(v, Spaces(r)) case Fail => Fail case More => More
  {
    assert x[1] == body[0];
    TagDiffers("\"\"", x, 1);
    assert x[1..] == body;
    TagHead("\"", x);
  }

  /** A quoted string is read back exactly when all its characters are readable; otherwise the
      literal is rejected, whatever follows. */
  lemma StrLitRead(p: char -> bool, s: string, k: string)
    ensures StrLit(Quote(p, s) + k) == if TextOk(p, s) then Done(s, Spaces(k)) else Fail
  {
    var x := Quote(p, s) + k;
    if s == [] {
      assert x == "\"\"" + k;
      EmptyLitRead(k);
    } else {
      var body := Escape(p, s) + ("\"" + k);
      assert x == "\"" + body;
      EscapeHead(p, s);
      assert body[0] == Escape(p, s)[0];
      QuotedRead(x, body);
      EscapeRead(p, s, k);
    }
  }

  // ---- numbers ---------------------------------------------------------------------------

  lemma {:induction false} RunRead(p: char -> bool, t: string, k: string)
    requires forall i :: 0 <= i < |t| ==> p(t[i])
    requires k != [] && !p(k[0])
    ensures Run(p, t + k) == Done(t, k)
  {
    if t == [] {
      assert t + k == k;
    } else {
      assert (t + k)[1..] == t[1..] + k && [t[0]] + t[1..] == t;
      RunRead(p, t[1..], k);
    }
  }

  lemma DecRead(n: nat, k: string)
    requires Delimited(k)
    ensures DecVal(NatText(n, 10) + k) == Done(n, Spaces(k))
    ensures HexVal(NatText(n, 10) + k) == Fail
    ensures DigitsFirst(NatText(n, 10) + k) == Fail
  {
    var t := NatText(n, 10);
    RunRead(IsDigit, t, k);
    RunRead(c => IsDigit(c) || c == '_', [], k);
    assert [] + k == k && t + [] == t;
    NatTextValue(n, 10);
    var x := t + k;
    assert x[1] == if |t| > 1 then t[1] else k[0];
    TagDiffers("0x", x, 1);
    TagDiffers("0X", x, 1);
    TagHead(".", k);
    TagHead("e", k);
    TagHead("E", k);
  }

  /** What the number rules do on a first character that is not theirs. */
  lemma NumberHeads(x: string)
    requires x != []
    ensures x[0] != '0' ==> HexVal(x) == Fail
    ensures !IsDigit(x[0]) ==> DecVal(x) == Fail && DigitsFirst(x) == Fail
    ensures x[0] != '.' ==> PointFirst(x) == Fail
    ensures x[0] != '-' ==> NegVal(x) == Fail
    ensures x[0] != '+' && x[0] != '-' ==> OptSign(x) == Done(None, x)
  {
    TagHead("0x", x);
    TagHead("0X", x);
    TagHead(".", x);
    TagHead("+", x);
    TagHead("-", x);
  }

  lemma NoFloat(x: string)
    requires OptSign(x).Done? && DigitsFirst(OptSign(x).rest) == Fail && PointFirst(OptSign(x).rest) == Fail
    ensures FloatVal(x) == Fail
  {
  }

  lemma NatRead(x: string, n: nat, k: string)
    requires Delimited(k) && x == NatText(n, 10) + k
    ensures BigintVal(x) == Done(n, Spaces(k))
    ensures FloatVal(x) == Fail
    ensures IsDigit(x[0])
  {
    DecRead(n, k);
    NumberHeads(x);
    NoFloat(x);
  }

  lemma MinusRead(t: string)
    requires t != [] && !IsSpace(t[0])
    ensures Tag("-", "-" + t) == Done((), t) && Sym("-", "-" + t) == Done((), t)
    ensures OptSign("-" + t) == Done(Some(()), t)
  {
    TagHead("-", "-" + t);
    TagHead("+", "-" + t);
    assert ("-" + t)[1..] == t;
  }

  lemma NegRead(x: string, i: int, k: string)
    requires i < 0 && Delimited(k) && x == "-" + (NatText(-i, 10) + k)
    ensures BigintVal(x) == Done(i, Spaces(k))
    ensures FloatVal(x) == Fail
    ensures x[0] == '-'
  {
    var t := NatText(-i, 10) + k;
    DecRead(-i, k);
    assert IsDigit(t[0]);
    NegBigint(x, t, i, Spaces(k));
    NegNoFloat(x, t);
  }

  lemma NegBigint(x: string, t: string, i: int, rest: string)
    requires i < 0 && t != [] && IsDigit(t[0]) && x == "-" + t
    requires HexVal(t) == Fail && DecVal(t) == Done(-i, rest)
    ensures BigintVal(x) == Done(i, rest)
  {
    MinusRead(t);
    NumberHeads(x);
  }

  lemma NegNoFloat(x: string, t: string)
    requires t != [] && IsDigit(t[0]) && x == "-" + t && DigitsFirst(t) == Fail
    ensures FloatVal(x) == Fail
  {
    MinusRead(t);
    NumberHeads(t);
    NoFloat(x);
  }

  lemma IntTextCat(i: int, k: string)
    ensures IntText(i) + k == if i >= 0 then NatText(i, 10) + k else "-" + (NatText(-i, 10) + k)
  {
    if i < 0 {
      assert IntText(i) == "-" + NatText(-i, 10);
    }
  }

  // ---- which rule reads a record, by its first character ---------------------------------

  /** The rules other than struct, float and integer fail on any other first character. */
  lemma Openers(x: string)
    requires x != []
    ensures x[0] != 't' && x[0] != 'f' ==> BoolVal(x) == Fail
    ensures x[0] != '\"' ==> StringVal(x) == Fail
    ensures x[0] != '@' ==> SerializedVal(x) == Fail
    ensures x[0] != '(' ==> TupleVal(x) == Fail
    ensures x[0] != '[' ==> ArrayVal(x) == Fail
    ensures !IsAlpha(x[0]) && x[0] != '_' ==> StructVal(x) == Fail
  {
    TagHead("true", x);
    TagHead("false", x);
    TagHead("\"\"", x);
    TagHead("\"", x);
    TagHead("@", x);
    TagHead("(", x);
    TagHead("[", x);
  }

  lemma NotNumber(x: string)
    requires x != [] && !IsDigit(x[0]) && x[0] != '+' && x[0] != '-' && x[0] != '.'
    ensures FloatVal(x) == Fail && IntVal(x) == Fail
  {
    NumberHeads(x);
    NoFloat(x);
  }

  /** `.` and then neither a digit nor, as in a field, anything numeric. */
  lemma PointNumber(x: string)
    requires |x| > 1 && x[0] == '.' && !IsDigit(x[1])
    ensures FloatVal(x) == Fail && IntVal(x) == Fail
  {
    NumberHeads(x);
    TagHead(".", x);
    NumberHeads(x[1..]);
    NoFloat(x);
  }

  lemma AllFail(x: string)
    requires BoolVal(x) == Fail && StringVal(x) == Fail && SerializedVal(x) == Fail && TupleVal(x) == Fail
    requires ArrayVal(x) == Fail && StructVal(x) == Fail && FloatVal(x) == Fail && IntVal(x) == Fail
    ensures ParseRecord(x) == Fail
  {
  }

  /** Text on which every record rule fails. */
  predicate Unreadable(x: string) {
    x != [] && (x[0] == '#' || x[0] == ',' || IsCloser(x[0]) || (x[0] == '.' && |x| > 1 && !IsDigit(x[1])))
  }

  lemma NoNumber(x: string)
    requires Unreadable(x)
    ensures FloatVal(x) == Fail && IntVal(x) == Fail
  {
    if x[0] == '.' {
      PointNumber(x);
    } else {
      NotNumber(x);
    }
  }

  lemma NoRecord(x: string)
    requires Unreadable(x)
    ensures ParseRecord(x) == Fail
  {
    NoNumber(x);
    NoOpener(x);
    AllFail(x);
  }

  lemma NoOpener(x: string)
    requires Unreadable(x)
    ensures BoolVal(x) == Fail && StringVal(x) == Fail && SerializedVal(x) == Fail && TupleVal(x) == Fail
    ensures ArrayVal(x) == Fail && StructVal(x) == Fail
  {
    Openers(x);
  }

  /** Where a name is read as a Boolean and where as a constructor. */
  lemma StructFirst(name: string, k: string)
    requires IsConstructor(name)
    ensures ParseRecord(name + ("{" + k)) == StructVal(name + ("{" + k))
  {
    var x := name + ("{" + k);
    assert x[|name|] == '{';
    NotBoolean(name, "true", k);
    NotBoolean(name, "false", k);
    Openers(x);
    assert StructVal(x) != Fail by {
      IdentRead(name, "{" + k);
    }
  }

  lemma NotBoolean(name: string, word: string, k: string)
    requires IsIdent(name) && word != [] && !(word <= name)
    requires forall i :: 0 <= i < |word| ==> word[i] != '{'
    ensures Sym(word, name + ("{" + k)) == Fail
  {
    var x := name + ("{" + k);
    if |word| <= |name| {
      assert x[..|word|] == name[..|word|];
    } else {
      assert x[|name|] == '{';
      TagDiffers(word, x, |name|);
    }
  }

  // ---- the printed text of a record ------------------------------------------------------

  predicate Opener(c: char) {
    c == '\"' || c == '(' || c == '[' || c == '#' || c == '-' || IsDigit(c) || IsAlpha(c) || c == '_'
  }

  lemma DisplayHead(p: char -> bool, r: Record)
    requires NamesOk(r) && Floatless(r)
    ensures Display(p, r) != [] && Opener(Display(p, r)[0])
  {
  }

  /** What follows a printed item: the next item or the closing bracket. */
  function ItemTail(p: char -> bool, rs: seq<Record>, k: string): string {
    if rs == [] then k else ", " + (DisplayItems(p, rs) + k)
  }

  lemma Separated(a: string, b: string, k: string)
    ensures (a + (", " + b)) + k == a + (", " + (b + k))
  {
  }

  lemma ItemsSplit(p: char -> bool, rs: seq<Record>, k: string)
    requires rs != []
    ensures DisplayItems(p, rs) + k == Display(p, rs[0]) + ItemTail(p, rs[1..], k)
  {
    if |rs| > 1 {
      Separated(Display(p, rs[0]), DisplayItems(p, rs[1..]), k);
    }
  }

  function FieldTail(p: char -> bool, fs: seq<(string, Record)>, k: string): string {
    if fs == [] then k else ", " + (DisplayFields(p, fs) + k)
  }

  lemma FieldsSplit(p: char -> bool, fs: seq<(string, Record)>, k: string)
    requires fs != []
    ensures DisplayFields(p, fs) + k == DisplayField(p, fs[0]) + FieldTail(p, fs[1..], k)
  {
    if |fs| > 1 {
      Separated(DisplayField(p, fs[0]), DisplayFields(p, fs[1..]), k);
    }
  }

  // ---- reading back ----------------------------------------------------------------------

  predicate Closer(k: string) {
    k != [] && IsCloser(k[0])
  }

  lemma Assoc(a: string, b: string, c: string, k: string)
    ensures (a + b + c) + k == a + (b + (c + k))
  {
  }

  lemma AssocName(name: string, open: string, b: string, c: string, k: string)
    ensures (name + open + b + c) + k == name + (open + (b + (c + k)))
  {
  }

  /** Text that opens with a bracket, a quote, a digit or a sign has one rule for it. */
  lemma ByOpener(x: string)
    requires x != []
    ensures x[0] == '\"' && StringVal(x) != Fail ==> ParseRecord(x) == StringVal(x)
    ensures x[0] == '(' ==> ParseRecord(x) == TupleVal(x)
    ensures x[0] == '[' ==> ParseRecord(x) == ArrayVal(x)
    ensures x[0] == '\"' && StringVal(x) == Fail ==> ParseRecord(x) == Fail
    ensures (IsDigit(x[0]) || x[0] == '-') && FloatVal(x) == Fail ==> ParseRecord(x) == IntVal(x)
  {
    Openers(x);
    if !IsDigit(x[0]) && x[0] != '-' && x[0] != '+' && x[0] != '.' {
      NotNumber(x);
    }
  }

  lemma IntRead(x: string, i: int, k: string)
    requires Delimited(k) && x == IntText(i) + k
    ensures BigintVal(x) == Done(i, Spaces(k))
    ensures FloatVal(x) == Fail
    ensures IsDigit(x[0]) || x[0] == '-'
  {
    IntTextCat(i, k);
    if i >= 0 {
      NatRead(x, i, k);
    } else {
      NegRead(x, i, k);
    }
  }

  lemma {:induction false} RecordRead(p: char -> bool, r: Record, k: string)
    requires Floatless(r) && NamesOk(r) && TextsOk(p, r) && Delimited(k)
    ensures ParseRecord(Display(p, r) + k) == Done(Norm(r), Spaces(k))
    decreases r, 6
  {
    var x := Display(p, r) + k;
    match r
    case Bool(b) =>
      BoolRead(b, k);
    case Int(i) =>
      IntRead(x, i, k);
      ByOpener(x);
    case Str(s) =>
      assert x[0] == '\"';
      StrLitRead(p, s, k);
      ByOpener(x);
    case Tuple(items) =>
      Assoc("(", DisplayItems(p, items), ")", k);
      assert x[0] == '(';
      ByOpener(x);
      TupleRead(p, items, k);
    case Array(kind, items) =>
      Assoc("[", DisplayItems(p, items), "]", k);
      assert x[0] == '[';
      ByOpener(x);
      ArrayRead(p, items, k);
    case PosStruct(name, items) =>
      AssocName(name, "{", DisplayItems(p, items), "}", k);
      StructFirst(name, DisplayItems(p, items) + ("}" + k));
      PosArgsRead(p, name, items, k);
    case NamedStruct(name, fields) =>
      AssocName(name, "{", DisplayFields(p, fields), "}", k);
      StructFirst(name, DisplayFields(p, fields) + ("}" + k));
      if fields == [] {
        PosArgsRead(p, name, [], k);
        assert DisplayItems(p, []) == DisplayFields(p, fields);
      } else {
        NamedArgsRead(p, name, fields, k);
      }
  }

  lemma BoolRead(b: bool, k: string)
    ensures ParseRecord((if b then "true" else "false") + k) == Done(Bool(b), Spaces(k))
  {
    SymRead("true", k);
    SymRead("false", k);
    TagHead("true", "false" + k);
  }

  /** Items before a closing bracket. */
  lemma {:induction false} InsideRead(p: char -> bool, rs: seq<Record>, k: string)
    requires ItemsFloatless(rs) && ItemNamesOk(rs) && ItemTextsOk(p, rs) && Closer(k)
    ensures Items(DisplayItems(p, rs) + k) == Done(NormItems(rs), k)
    ensures var x := DisplayItems(p, rs) + k; x != [] && !IsSpace(x[0]) && x[0] != '.'
    decreases rs, 4
  {
    if rs == [] {
      assert DisplayItems(p, rs) + k == k;
      NoItems(k);
    } else {
      ItemsHead(p, rs, k);
      ItemsRead(p, rs, k);
    }
  }

  lemma NoItems(k: string)
    requires Closer(k)
    ensures Items(k) == Done([], k) && !IsSpace(k[0]) && k[0] != '.'
  {
    NoRecord(k);
  }

  /** How the text of a non-empty list begins. */
  lemma ItemsHead(p: char -> bool, rs: seq<Record>, k: string)
    requires rs != [] && ItemsFloatless(rs) && ItemNamesOk(rs)
    ensures var x := DisplayItems(p, rs) + k; x != [] && !IsSpace(x[0]) && !IsCloser(x[0]) && x[0] != '.'
  {
    DisplayHead(p, rs[0]);
    ItemsSplit(p, rs, k);
  }

  lemma {:induction false} TupleRead(p: char -> bool, rs: seq<Record>, k: string)
    requires ItemsFloatless(rs) && ItemNamesOk(rs) && ItemTextsOk(p, rs)
    ensures TupleVal("(" + (DisplayItems(p, rs) + (")" + k))) == Done(Tuple(NormItems(rs)), Spaces(k))
    decreases rs, 5
  {
    InsideRead(p, rs, ")" + k);
    SymRead("(", DisplayItems(p, rs) + (")" + k));
    SymRead(")", k);
  }

  lemma {:induction false} ArrayRead(p: char -> bool, rs: seq<Record>, k: string)
    requires ItemsFloatless(rs) && ItemNamesOk(rs) && ItemTextsOk(p, rs)
    ensures ArrayVal("[" + (DisplayItems(p, rs) + ("]" + k))) == Done(Array(Unknown, NormItems(rs)), Spaces(k))
    decreases rs, 5
  {
    InsideRead(p, rs, "]" + k);
    SymRead("[", DisplayItems(p, rs) + ("]" + k));
    SymRead("]", k);
  }

  lemma {:induction false} ItemsRead(p: char -> bool, rs: seq<Record>, k: string)
    requires rs != [] && ItemsFloatless(rs) && ItemNamesOk(rs) && ItemTextsOk(p, rs) && Closer(k)
    ensures Items(DisplayItems(p, rs) + k) == Done(NormItems(rs), k)
    decreases rs, 3
  {
    ItemsSplit(p, rs, k);
    ItemTailHead(p, rs[1..], k);
    RecordRead(p, rs[0], ItemTail(p, rs[1..], k));
    ItemTailRead(p, rs[1..], k);
  }

  lemma ItemTailHead(p: char -> bool, rs: seq<Record>, k: string)
    requires Closer(k)
    ensures Delimited(ItemTail(p, rs, k)) && Stripped(ItemTail(p, rs, k)) &&
      Spaces(ItemTail(p, rs, k)) == ItemTail(p, rs, k)
  {
  }

  lemma {:induction false} ItemTailRead(p: char -> bool, rs: seq<Record>, k: string)
    requires ItemsFloatless(rs) && ItemNamesOk(rs) && ItemTextsOk(p, rs) && Closer(k)
    ensures MoreItems(ItemTail(p, rs, k)) == Done(NormItems(rs), k)
    decreases rs, 2
  {
    if rs == [] {
      NoMoreItems(k);
    } else {
      var inner, tail := DisplayItems(p, rs) + k, ItemTail(p, rs[1..], k);
      ItemsSplit(p, rs, k);
      ItemsHead(p, rs, k);
      CommaRead(inner);
      ItemTailHead(p, rs[1..], k);
      ItemTailRead(p, rs[1..], k);
      RecordRead(p, rs[0], tail);
      NextItem(inner, Norm(rs[0]), tail);
    }
  }

  lemma NoMoreItems(k: string)
    requires Closer(k)
    ensures MoreItems(k) == Done([], k)
  {
    TagHead(",", k);
  }

  /** One item after a comma. */
  lemma NextItem(inner: string, v: Record, tail: string)
    requires Sym(",", ", " + inner) == Done((), inner) && ParseRecord(inner) == Done(v, tail) && MoreItems(tail).Done?
    ensures MoreItems(", " + inner) == Done([v] + MoreItems(tail).value, MoreItems(tail).rest)
  {
  }

  /** A comma and a blank before text that is not blank. */
  lemma CommaRead(inner: string)
    requires inner != [] && !IsSpace(inner[0])
    ensures Sym(",", ", " + inner) == Done((), inner)
  {
    var x := ", " + inner;
    TagHead(",", x);
    assert x[1..][1..] == inner;
  }

  lemma {:induction false} PosArgsRead(p: char -> bool, name: string, rs: seq<Record>, k: string)
    requires IsConstructor(name) && ItemsFloatless(rs) && ItemNamesOk(rs) && ItemTextsOk(p, rs)
    ensures StructVal(name + ("{" + (DisplayItems(p, rs) + ("}" + k)))) ==
      Done(PosStruct(name, NormItems(rs)), Spaces(k))
    decreases rs, 5
  {
    var inner := DisplayItems(p, rs) + ("}" + k);
    InsideRead(p, rs, "}" + k);
    Positional(name, inner);
    StructRead(name, inner, PosStruct(name, NormItems(rs)), k);
  }

  /** Arguments that do not start with a point are positional. */
  lemma Positional(name: string, x: string)
    requires x != [] && x[0] != '.' && Items(x).Done?
    ensures ConstructorArgs(name, x) == Done(PosStruct(name, Items(x).value), Items(x).rest)
  {
    TagHead(".", x);
    assert NamedRecord(x) == Fail;
    assert NamedArgs(name, x) == Fail;
  }

  /** A constructor whose arguments have been read up to the closing brace. */
  lemma StructRead(name: string, inner: string, rec: Record, k: string)
    requires IsIdent(name) && inner != [] && !IsSpace(inner[0])
    requires ConstructorArgs(name, inner) == Done(rec, "}" + k)
    ensures StructVal(name + ("{" + inner)) == Done(rec, Spaces(k))
  {
    IdentRead(name, "{" + inner);
    SymRead("{", inner);
    SymRead("}", k);
  }

  lemma {:induction false} NamedArgsRead(p: char -> bool, name: string, fs: seq<(string, Record)>, k: string)
    requires fs != [] && IsConstructor(name) && FieldsFloatless(fs) && FieldNamesOk(fs) && FieldTextsOk(p, fs)
    ensures StructVal(name + ("{" + (DisplayFields(p, fs) + ("}" + k)))) ==
      Done(NamedStruct(name, NormFields(fs)), Spaces(k))
    decreases fs, 5
  {
    var close := "}" + k;
    var inner := DisplayFields(p, fs) + close;
    FieldsSplit(p, fs, close);
    FieldTailRead(p, fs[1..], close);
    FieldRead(p, fs[0], FieldTail(p, fs[1..], close));
    StructRead(name, inner, NamedStruct(name, NormFields(fs)), k);
  }

  lemma {:induction false} FieldRead(p: char -> bool, f: (string, Record), k: string)
    requires FieldFloatless(f) && FieldNameOk(f) && FieldTextOk(p, f) && Delimited(k) && Stripped(k)
    ensures NamedRecord(DisplayField(p, f) + k) == Done(NormField(f), k)
    decreases f, 7
  {
    var v := Display(p, f.1) + k;
    DisplayHead(p, f.1);
    FieldText(f.0, Display(p, f.1), k);
    FieldPrefix(f.0, v);
    RecordRead(p, f.1, k);
  }

  lemma FieldText(name: string, v: string, k: string)
    ensures ("." + name + " = " + v) + k == "." + (name + (" = " + (v + k)))
  {
  }

  lemma EqualsRead(v: string)
    requires v != [] && !IsSpace(v[0])
    ensures Spaces(" = " + v) == "= " + v
    ensures Sym("=", "= " + v) == Done((), v)
  {
    assert (" = " + v)[1..] == "= " + v;
    SymRead("=", " " + v);
    assert "=" + (" " + v) == "= " + v;
    assert (" " + v)[1..] == v;
  }

  /** The part of a field before its value. */
  lemma FieldPrefix(name: string, v: string)
    requires IsIdent(name) && v != [] && !IsSpace(v[0])
    ensures var x := "." + (name + (" = " + v));
      && |x| > 1 && x[0] == '.' && !IsDigit(x[1])
      && Sym(".", x) == Done((), name + (" = " + v))
      && Ident(name + (" = " + v)) == Done(name, "= " + v)
      && Sym("=", "= " + v) == Done((), v)
  {
    var n := name + (" = " + v);
    assert n[0] == name[0];
    SymRead(".", n);
    EqualsRead(v);
    IdentRead(name, " = " + v);
  }

  lemma {:induction false} FieldTailRead(p: char -> bool, fs: seq<(string, Record)>, k: string)
    requires FieldsFloatless(fs) && FieldNamesOk(fs) && FieldTextsOk(p, fs) && Closer(k)
    ensures Delimited(FieldTail(p, fs, k)) && Stripped(FieldTail(p, fs, k))
    ensures MoreFields(FieldTail(p, fs, k)) == Done(NormFields(fs), k)
    decreases fs, 4
  {
    if fs == [] {
      TagHead(",", k);
    } else {
      var inner := DisplayFields(p, fs) + k;
      FieldsSplit(p, fs, k);
      FieldTailRead(p, fs[1..], k);
      FieldRead(p, fs[0], FieldTail(p, fs[1..], k));
      CommaRead(inner);
    }
  }
}
