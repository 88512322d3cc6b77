/**
  Records as people write them, in forms that the program itself does not print
  (rust/template/cmd_parser/parse.rs): hexadecimal numbers, numbers with underscores, floating
  point numbers, serialized values, all the escapes of a string, and constructors without
  arguments.
 */
module Literals {
  import opened Stream
  import opened Wrappers
  import opened Records
  import opened Parser
  import opened RoundTrip
  import opened Unreadables

  // ---- characters ------------------------------------------------------------------------

  /** Letters, digits and underscores, not beginning with a digit, are an identifier. */
  lemma {:induction false} PlainBody(s: string)
    requires forall i :: 0 <= i < |s| ==>
      'a' <= s[i] <= 'z' || 'A' <= s[i] <= 'Z' || '0' <= s[i] <= '9' || s[i] == '_'
    ensures IdentBody(s)
  {
    if s != [] {
      PlainBody(s[1..]);
    }
  }

  lemma PlainIdent(s: string)
    requires s != "" && !('0' <= s[0] <= '9')
    requires forall i :: 0 <= i < |s| ==>
      'a' <= s[i] <= 'z' || 'A' <= s[i] <= 'Z' || '0' <= s[i] <= '9' || s[i] == '_'
    ensures IsIdent(s)
  {
    PlainBody(s[1..]);
  }

  /** Identifiers can be joined by two colons. */
  lemma {:induction false} JoinedBody(a: string, b: string)
    requires IdentBody(a) && IdentBody(b)
    ensures IdentBody(a + b)
  {
    if a == [] {
      assert a + b == b;
    } else if IsIdChar(a[0]) {
      assert (a + b)[1..] == a[1..] + b;
      JoinedBody(a[1..], b);
    } else {
      assert (a + b)[2..] == a[2..] + b;
      JoinedBody(a[2..], b);
    }
  }

  lemma JoinedIdent(a: string, b: string)
    requires IsIdent(a) && IsIdent(b)
    ensures IsIdent(a + "::" + b)
  {
    assert "::"[2..] == "" && IdentBody("::");
    assert IdentBody(b) by {
      assert IsIdChar(b[0]);
    }
    JoinedBody("::", b);
    JoinedBody(a[1..], "::" + b);
    assert (a + "::" + b)[1..] == a[1..] + ("::" + b);
  }

  /** Blanks, tabs and line breaks before a command make no difference. */
  lemma {:induction false} BlanksIgnored(t: string, x: string)
    requires forall i :: 0 <= i < |t| ==> t[i] in {' ', '\U{09}', '\U{0A}', '\U{0D}'}
    ensures Spaces(t + x) == Spaces(x)
  {
    if t == [] {
      assert t + x == x;
    } else {
      assert (t + x)[1..] == t[1..] + x;
      BlanksIgnored(t[1..], x);
    }
  }

  // ---- integers --------------------------------------------------------------------------

  /** Digits, with underscores after the first. */
  predicate NumberLiteral(p: char -> bool, t: string) {
    t != [] && p(t[0]) && forall i :: 0 <= i < |t| ==> p(t[i]) || t[i] == '_'
  }

  /** The leading digits of a literal. */
  function Leading(p: char -> bool, t: string): (n: nat)
    ensures n <= |t| && (forall i :: 0 <= i < n ==> p(t[i])) && (n < |t| ==> !p(t[n]))
  {
    if t != [] && p(t[0]) then 1 + Leading(p, t[1..]) else 0
  }

  lemma NumberRead(p: char -> bool, base: Base, t: string, k: string)
    requires forall c :: p(c) ==> IsHexDigit(c)
    requires NumberLiteral(p, t) && Delimited(k)
    ensures IsNumberText(t) && Number(p, base, t + k) == Done(NumberValue(t, base), Spaces(k))
  {
    var n := Leading(p, t);
    var b1, b2 := t[..n], t[n..];
    var q := c => p(c) || c == '_';
    assert t + k == b1 + (b2 + k) && b1 + b2 == t;
    RunRead(p, b1, b2 + k);
    RunRead(q, b2, k);
  }

  /** Underscores mean nothing. */
  lemma {:induction false} UnderscoresMeanNothing(a: string, b: string, base: Base)
    requires IsNumberText(a + b)
    ensures IsNumberText(a + "_" + b) && NumberValue(a + "_" + b, base) == NumberValue(a + b, base)
  {
    var x := a + "_" + b;
    if b == [] {
      assert a + b == a && x[..|x| - 1] == a && x[|x| - 1] == '_';
    } else {
      var n := |b| - 1;
      assert x[..|x| - 1] == a + "_" + b[..n] && (a + b)[..|a + b| - 1] == a + b[..n];
      assert x[|x| - 1] == b[n] == (a + b)[|a + b| - 1];
      assert IsNumberText(a + b[..n]) by {
        assert forall i :: 0 <= i < |a + b[..n]| ==> (a + b[..n])[i] == (a + b)[i];
      }
      UnderscoresMeanNothing(a, b[..n], base);
    }
  }

  /** A decimal literal is an integer, and not a float. */
  lemma DecimalRead(t: string, k: string)
    requires NumberLiteral(IsDigit, t) && Delimited(k)
    ensures IsNumberText(t) && ParseRecord(t + k) == Done(Int(NumberValue(t, 10)), Spaces(k))
    ensures BigintVal(t + k) == Done(NumberValue(t, 10), Spaces(k))
  {
    NumberRead(IsDigit, 10, t, k);
    DecimalNotElse(t, k);
    NumberHeads(t + k);
    NoFloat(t + k);
    ByOpener(t + k);
  }

  /** A decimal literal is neither hexadecimal nor the beginning of a float. */
  lemma DecimalNotElse(t: string, k: string)
    requires NumberLiteral(IsDigit, t) && Delimited(k)
    ensures HexVal(t + k) == Fail && DigitsFirst(t + k) == Fail
  {
    var n := Leading(IsDigit, t);
    var r := t[n..] + k;
    assert t + k == t[..n] + r;
    RunRead(IsDigit, t[..n], r);
    TagHead(".", r);
    TagHead("e", r);
    TagHead("E", r);
    assert (t + k)[1] == if |t| > 1 then t[1] else k[0];
    TagDiffers("0x", t + k, 1);
    TagDiffers("0X", t + k, 1);
  }

  /** A hexadecimal literal, after `0x` or `0X`. */
  lemma HexRead(x: string, big: bool, t: string, k: string)
    requires NumberLiteral(IsHexDigit, t) && Delimited(k)
    requires x == (if big then "0X" else "0x") + (t + k)
    ensures IsNumberText(t) && ParseRecord(x) == Done(Int(NumberValue(t, 16)), Spaces(k))
    ensures BigintVal(x) == Done(NumberValue(t, 16), Spaces(k))
  {
    NumberRead(IsHexDigit, 16, t, k);
    assert x[2..] == t + k;
    assert (if big then "0X" else "0x") <= x;
    if big {
      TagDiffers("0x", x, 1);
    }
    HexNotFloat(x);
    ByOpener(x);
  }

  lemma HexNotFloat(x: string)
    requires |x| > 1 && x[0] == '0' && (x[1] == 'x' || x[1] == 'X')
    ensures FloatVal(x) == Fail
  {
    NumberHeads(x);
    RunRead(IsDigit, x[..1], x[1..]);
    assert x[..1] + x[1..] == x;
    TagHead(".", x[1..]);
    TagHead("e", x[1..]);
    TagHead("E", x[1..]);
    NoFloat(x);
  }

  /** A minus sign before a literal negates it. */
  lemma MinusLiteral(x: string, t: string, i: int, k: string)
    requires x == "-" + t && t != [] && IsDigit(t[0]) && DigitsFirst(t) == Fail
    requires HexVal(t) == Done(-i, k) || (HexVal(t) == Fail && DecVal(t) == Done(-i, k))
    ensures ParseRecord(x) == Done(Int(i), k)
  {
    MinusBigint(x, t, i, k);
    NegNoFloat(x, t);
    ByOpener(x);
  }

  lemma MinusBigint(x: string, t: string, i: int, k: string)
    requires x == "-" + t && t != [] && IsDigit(t[0])
    requires HexVal(t) == Done(-i, k) || (HexVal(t) == Fail && DecVal(t) == Done(-i, k))
    ensures BigintVal(x) == Done(i, k)
  {
    MinusRead(t);
    NumberHeads(x);
  }

  /** Some literals. */
  lemma LowerHexExample(x: string, k: string)
    requires Delimited(k) && x == "0xabcd" + k
    ensures ParseRecord(x) == Done(Int(43981), Spaces(k))
  {
    HexFour();
    assert "0x" + "abcd" == "0xabcd" && ("0x" + "abcd") + k == "0x" + ("abcd" + k);
    HexRead(x, false, "abcd", k);
  }

  lemma UpperHexExample(x: string, k: string)
    requires Delimited(k) && x == "0XFf" + k
    ensures ParseRecord(x) == Done(Int(255), Spaces(k))
  {
    HexTwo();
    assert "0X" + "Ff" == "0XFf" && ("0X" + "Ff") + k == "0X" + ("Ff" + k);
    HexRead(x, true, "Ff", k);
  }

  lemma UnderscoreExample(k: string)
    requires Delimited(k)
    ensures ParseRecord("1_000_" + k) == Done(Int(1000), Spaces(k))
  {
    ThousandValue();
    DecimalRead("1_000_", k);
  }

  lemma HexFour()
    ensures NumberValue("abcd", 16) == 43981
  {
    assert "abcd"[..3] == "abc" && "abc"[..2] == "ab" && "ab"[..1] == "a" && "a"[..0] == "";
    assert NumberValue("a", 16) == 10;
    assert NumberValue("ab", 16) == 171;
    assert NumberValue("abc", 16) == 2748;
  }

  lemma HexTwo()
    ensures NumberValue("Ff", 16) == 255
  {
    assert "Ff"[..1] == "F" && "F"[..0] == "";
    assert NumberValue("F", 16) == 15;
  }

  lemma ThousandValue()
    ensures NumberValue("1_000_", 10) == 1000
  {
    assert "1_000_"[..5] == "1_000" && "1_000"[..4] == "1_00" && "1_00"[..3] == "1_0" && "1_0"[..2] == "1_";
    assert "1_"[..1] == "1" && "1"[..0] == "";
    assert NumberValue("1", 10) == 1 && NumberValue("1_", 10) == 1;
    assert NumberValue("1_0", 10) == 10;
    assert NumberValue("1_00", 10) == 100;
    assert NumberValue("1_000", 10) == 1000;
  }

  // ---- floating point numbers ------------------------------------------------------------

  predicate Digits(t: string) {
    forall i :: 0 <= i < |t| ==> IsDigit(t[i])
  }

  predicate IsSign(t: string) {
    t == "" || t == "+" || t == "-"
  }

  /** `e` or `E`, a sign or none, and digits. */
  predicate IsExponent(t: string) {
    |t| > 1 && (t[0] == 'e' || t[0] == 'E') &&
    ((IsDigit(t[1]) && Digits(t[1..])) || ((t[1] == '+' || t[1] == '-') && |t| > 2 && Digits(t[2..])))
  }

  lemma Run1Read(t: string, k: string)
    requires t != [] && Digits(t) && k != [] && !IsDigit(k[0])
    ensures Run1(IsDigit, t + k) == Done(t, k)
  {
    RunRead(IsDigit, t, k);
  }

  lemma NoDigits(k: string)
    requires k != [] && !IsDigit(k[0])
    ensures Run1(IsDigit, k) == Fail
  {
  }

  lemma SignRead(s: string, k: string)
    requires IsSign(s) && k != [] && k[0] != '+' && k[0] != '-'
    ensures OptSign(s + k).Done? && OptSign(s + k).rest == k
  {
    if s == "" {
      assert s + k == k;
      TagHead("+", k);
      TagHead("-", k);
    } else {
      TagHead("+", s + k);
      TagHead("-", s + k);
      assert (s + k)[1..] == k;
    }
  }

  lemma ExponentRead(e: string, k: string)
    requires IsExponent(e) && k != [] && !IsDigit(k[0])
    ensures Exponent(e + k) == Done((), k)
  {
    var x := e + k;
    TagHead("e", x);
    TagHead("E", x);
    var s := if IsDigit(e[1]) then "" else e[1..2];
    var d := if IsDigit(e[1]) then e[1..] else e[2..];
    assert x[1..] == s + (d + k);
    SignRead(s, d + k);
    Run1Read(d, k);
  }

  /** An exponent, or none. */
  lemma OptExponentRead(e: string, k: string)
    requires e == "" || IsExponent(e)
    requires k != [] && !IsDigit(k[0]) && k[0] != 'e' && k[0] != 'E'
    ensures var o := Opt(Exponent(e + k), e + k); o.Done? && o.rest == k
  {
    if e == "" {
      assert e + k == k;
      TagHead("e", k);
      TagHead("E", k);
    } else {
      ExponentRead(e, k);
    }
  }

  /** The text of a float without its sign: digits with a point or an exponent. */
  predicate IsMantissa(a: string, point: bool, b: string, e: string) {
    && Digits(a) && Digits(b) && (e == "" || IsExponent(e))
    && (if point then a != "" || b != "" else a != "" && b == "" && e != "")
  }

  function Mantissa(a: string, point: bool, b: string, e: string): string {
    a + ((if point then "." + b else "") + e)
  }

  lemma FractionRead(b: string, e: string, k: string)
    requires Digits(b) && (e == "" || IsExponent(e)) && Delimited(k)
    ensures Fraction("." + (b + (e + k))) == Done((), k)
    ensures b != "" ==> PointFirst("." + (b + (e + k))) == Done((), k)
  {
    var x, r := "." + (b + (e + k)), e + k;
    TagHead(".", x);
    assert x[1..] == b + r && !IsDigit(r[0]);
    if b == "" {
      assert b + r == r;
      NoDigits(r);
    } else {
      Run1Read(b, r);
    }
    OptExponentRead(e, k);
  }

  lemma MantissaRead(a: string, point: bool, b: string, e: string, k: string)
    requires IsMantissa(a, point, b, e) && Delimited(k)
    ensures var x := Mantissa(a, point, b, e) + k; Alt(DigitsFirst(x), PointFirst(x)) == Done((), k)
  {
    var r := if point then "." + (b + (e + k)) else e + k;
    assert Mantissa(a, point, b, e) + k == a + r;
    if point {
      FractionRead(b, e, k);
    } else {
      TagHead(".", r);
      ExponentRead(e, k);
    }
    if a == "" {
      assert a + r == r;
      NoDigits(r);
    } else {
      Run1Read(a, r);
    }
  }

  /** A literal with a point or an exponent is a double, with the text of the literal. */
  lemma FloatRead(s: string, a: string, point: bool, b: string, e: string, k: string)
    requires IsSign(s) && IsMantissa(a, point, b, e) && Delimited(k)
    ensures var t := s + Mantissa(a, point, b, e); ParseRecord(t + k) == Done(Double(t), Spaces(k))
  {
    var m := Mantissa(a, point, b, e);
    var t := s + m;
    var x := t + k;
    assert x == s + (m + k);
    assert IsDigit((m + k)[0]) || (m + k)[0] == '.';
    SignRead(s, m + k);
    MantissaRead(a, point, b, e, k);
    assert x[..|x| - |k|] == t;
    FloatFirst(x, t, k);
  }

  lemma FloatFirst(x: string, t: string, k: string)
    requires x != [] && (IsDigit(x[0]) || x[0] == '.' || x[0] == '+' || x[0] == '-')
    requires RecognizeFloat(x) == Done(t, k)
    ensures ParseRecord(x) == Done(Double(t), Spaces(k))
  {
    Openers(x);
  }

  // ---- strings ---------------------------------------------------------------------------

  /** Every escape, in a list of the letters after the backslash and of what they mean. */
  predicate MeansAll(letters: string, s: string) {
    |letters| == |s| && forall i :: 0 <= i < |s| ==>
      (letters[i], s[i]) in {('\\', '\\'), ('\"', '\"'), ('\'', '\''), ('n', '\U{0A}'), ('a', '\U{07}'),
                             ('b', '\U{08}'),
                             ('f', '\U{0C}'), ('r', '\U{0D}'), ('t', '\U{09}'), ('v', '\U{0B}'), ('?', '?')}
  }

  function Escaped(letters: string): string {
    if letters == [] then "" else ['\\', letters[0]] + Escaped(letters[1..])
  }

  lemma {:induction false} EscapedRead(letters: string, s: string, k: string)
    requires MeansAll(letters, s)
    ensures StrBody(Escaped(letters) + ("\"" + k)) == Done(s, k)
  {
    var rest := "\"" + k;
    assert rest[0] == '\"' && rest[1..] == k;
    if letters == [] {
      assert Escaped(letters) + rest == rest;
    } else {
      EscapedRead(letters[1..], s[1..], k);
      var t := Escaped(letters[1..]) + rest;
      assert Escaped(letters) + rest == ['\\', letters[0]] + t;
      assert Unescape(letters[0]) == Some(s[0]);
      EscapedStep(letters[0], t);
      assert [s[0]] + s[1..] == s;
    }
  }

  /** A string of escapes is read as the characters they mean. */
  lemma EscapesRead(letters: string, s: string, k: string)
    requires MeansAll(letters, s) && s != []
    ensures ParseRecord("\"" + (Escaped(letters) + ("\"" + k))) == Done(Str(s), Spaces(k))
  {
    var body := Escaped(letters) + ("\"" + k);
    EscapedRead(letters, s, k);
    QuotedRead("\"" + body, body);
    ByOpener("\"" + body);
  }

  /** A serialized value as the grammar wants it. */
  lemma SerializedRead(p: char -> bool, format: string, s: string, k: string)
    requires IsIdent(format) && TextOk(p, s)
    ensures ParseRecord("@" + (format + (Quote(p, s) + k))) == Done(Serialized(format, s), Spaces(k))
  {
    var x := "@" + (format + (Quote(p, s) + k));
    var q := Quote(p, s) + k;
    TagHead("@", x);
    assert x[1..] == format + q;
    assert q[0] == '\"' && Spaces(q) == q;
    IdentRead(format, q);
    StrLitRead(p, s, k);
    Openers(x);
  }

  // ---- constructors without arguments ----------------------------------------------------

  lemma NotWord(name: string, word: string, k: string)
    requires IsIdent(name) && word != [] && !(word <= name) && EndsIdent(k)
    requires forall i :: 0 <= i < |word| ==> IsIdChar(word[i])
    ensures Sym(word, name + k) == Fail
  {
    var x := name + k;
    if |word| <= |name| {
      assert x[..|word|] == name[..|word|];
      assert exists i :: 0 <= i < |word| && word[i] != name[i];
      var i :| 0 <= i < |word| && word[i] != name[i];
      TagDiffers(word, x, i);
    } else {
      assert x[|name|] == k[0];
      TagDiffers(word, x, |name|);
    }
  }

  /** A constructor may be written without braces. */
  lemma BareConstructor(name: string, k: string)
    requires IsConstructor(name) && EndsIdent(k) && Spaces(k) != [] && Spaces(k)[0] != '{'
    ensures ParseRecord(name + k) == Done(PosStruct(name, []), Spaces(k))
  {
    var x := name + k;
    NotWord(name, "true", k);
    NotWord(name, "false", k);
    IdentRead(name, k);
    TagHead("{", Spaces(k));
    Openers(x);
    assert BoolVal(x) == Fail;
    assert StructVal(x) == Done(PosStruct(name, []), Spaces(k));
  }
}
