/**
  DDlog records, update commands and CLI commands, and the text the program writes for them
  (rust/template/differential_datalog/src/record/mod.rs, rust/template/cmd_parser/parse.rs).

  A double is carried as the literal it was written with; single precision records, which
  neither the parser nor the OVSDB adapter builds, are not part of this model.
 */
module Records {
  import opened Stream
  import opened Wrappers

  datatype Kind = Unknown | Vector | Set | Map

  datatype Record =
    | Bool(b: bool)
    | Int(i: int)
    | Double(literal: string)
    | Str(s: string)
    | Serialized(format: string, data: string)
    | Tuple(items: seq<Record>)
    | Array(kind: Kind, items: seq<Record>)
    | PosStruct(name: string, items: seq<Record>)
    | NamedStruct(name: string, fields: seq<(string, Record)>)

  datatype UpdCmd =
    | Insert(rel: string, rec: Record)
    | InsertOrUpdate(rel: string, rec: Record)
    | Delete(rel: string, rec: Record)
    | DeleteKey(rel: string, key: Record)
    | Modify(rel: string, key: Record, mutator: Record)

  datatype ProfileCmd = Cpu(on: bool) | Change(on: bool) | Timely(on: bool)

  datatype Command =
    | Start
    | Commit(dumpChanges: bool)
    | Comment
    | Rollback
    | Timestamp
    | Profile(profile: Option<ProfileCmd>)
    | Dump(output: Option<string>)
    | Clear(input: string)
    | Exit
    | Echo(text: string)
    | LogLevel(level: int)
    | Sleep(ms: int)
    | Update(upd: UpdCmd, last: bool)
    | QueryIndex(idx: string, arg: Record)
    | DumpIndex(idx: string)

  // ---- decimal and hexadecimal text ------------------------------------------------------

  function DigitChar(d: nat): (c: char)
    requires d < 16
    ensures IsHexDigit(c) && DigitValue(c) == d && c != '_'
    ensures d < 10 ==> IsDigit(c)
    ensures d > 0 ==> c != '0'
  {
    if d < 10 then ('0' as int + d) as char else ('a' as int + d - 10) as char
  }

  function Quotient(n: nat, base: Base): (q: nat)
    ensures n == Scale(q, base) + LastDigit(n, base)
    ensures n >= base ==> 0 < q < n
  {
    if base == 10 then n / 10 else n / 16
  }

  function LastDigit(n: nat, base: Base): (d: nat)
    ensures d < base
  {
    if base == 10 then n % 10 else n % 16
  }

  /** A natural number without leading zeros. */
  function NatText(n: nat, base: Base): (t: string)
    ensures t != [] && forall i :: 0 <= i < |t| ==> IsHexDigit(t[i])
    ensures base == 10 ==> forall i :: 0 <= i < |t| ==> IsDigit(t[i])
    ensures n > 0 ==> t[0] != '0'
    decreases n
  {
    if n < base then [DigitChar(n)]
    else NatText(Quotient(n, base), base) + [DigitChar(LastDigit(n, base))]
  }

  function IntText(i: int): string {
    if i >= 0 then NatText(i, 10) else "-" + NatText(-i, 10)
  }

  lemma NumberSnoc(t: string, c: char, base: Base)
    requires IsNumberText(t) && IsHexDigit(c)
    ensures IsNumberText(t + [c])
    ensures NumberValue(t + [c], base) == Scale(NumberValue(t, base), base) + DigitValue(c)
  {
    assert (t + [c])[..|t|] == t;
  }

  lemma OneDigit(d: nat, base: Base)
    requires d < base
    ensures NumberValue([DigitChar(d)], base) == d
  {
    NumberSnoc([], DigitChar(d), base);
    assert [] + [DigitChar(d)] == [DigitChar(d)];
  }

  /** Reading a number back from its text. */
  lemma {:induction false} NatTextValue(n: nat, base: Base)
    ensures NumberValue(NatText(n, base), base) == n
    decreases n
  {
    if n < base {
      OneDigit(n, base);
    } else {
      var q, d := Quotient(n, base), LastDigit(n, base);
      NatTextValue(q, base);
      NumberSnoc(NatText(q, base), DigitChar(d), base);
      assert NatText(n, base) == NatText(q, base) + [DigitChar(d)];
    }
  }

  // ---- the printer -----------------------------------------------------------------------

  /** Characters Rust writes unescaped.  Beyond ASCII the answer is Unicode's: `p` stands for it. */
  predicate Printable(p: char -> bool, c: char) {
    if c < '\U{80}' then ' ' <= c <= '~' else p(c)
  }

  /** The letter written after the backslash for characters with a short escape. */
  function Letter(c: char): Option<char> {
    match c
    case '\U{00}' => Some('0')
    case '\t' => Some('t')
    case '\r' => Some('r')
    case '\n' => Some('n')
    case '\'' => Some('\'')
    case '\"' => Some('\"')
    case '\\' => Some('\\')
    case _ => None
  }

  function UnicodeEscape(c: char): (t: string)
    ensures |t| > 2 && t[..2] == "\\u"
  {
    "\\u" + ("{" + NatText(c as nat, 16) + "}")
  }

  /** `char::escape_debug`. */
  function EscapeDebug(p: char -> bool, c: char): string {
    if Letter(c).Some? then ['\\', Letter(c).value]
    else if Printable(p, c) then [c]
    else UnicodeEscape(c)
  }

  function EscapeChar(p: char -> bool, c: char): string {
    if c == '\'' then [c] else EscapeDebug(p, c)
  }

  function Escape(p: char -> bool, s: string): string {
    if s == [] then "" else EscapeChar(p, s[0]) + Escape(p, s[1..])
  }

  function Quote(p: char -> bool, s: string): string {
    "\"" + Escape(p, s) + "\""
  }

  function Display(p: char -> bool, r: Record): string
    decreases r, 1
  {
    match r
    case Bool(b) => if b then "true" else "false"
    case Int(i) => IntText(i)
    case Double(literal) => literal
    case Str(s) => Quote(p, s)
    case Serialized(format, data) => "#" + format + Quote(p, data)
    case Tuple(items) => "(" + DisplayItems(p, items) + ")"
    case Array(_, items) => "[" + DisplayItems(p, items) + "]"
    case PosStruct(name, items) => name + "{" + DisplayItems(p, items) + "}"
    case NamedStruct(name, fields) => name + "{" + DisplayFields(p, fields) + "}"
  }

  function DisplayItems(p: char -> bool, rs: seq<Record>): string
    decreases rs, 0
  {
    if rs == [] then ""
    else Display(p, rs[0]) + (if |rs| == 1 then "" else ", " + DisplayItems(p, rs[1..]))
  }

  function DisplayField(p: char -> bool, f: (string, Record)): string
    decreases f, 0
  {
    "." + f.0 + " = " + Display(p, f.1)
  }

  function DisplayFields(p: char -> bool, fs: seq<(string, Record)>): string
    decreases fs, 0
  {
    if fs == [] then ""
    else DisplayField(p, fs[0]) + (if |fs| == 1 then "" else ", " + DisplayFields(p, fs[1..]))
  }

  lemma ThreeTexts(a: string, b: string, c: string)
    ensures a + (b + c) == (a + b) + c
  {
  }

  lemma {:induction false} EscapeCat(p: char -> bool, a: string, c: char)
    ensures Escape(p, a + [c]) == Escape(p, a) + EscapeChar(p, c)
  {
    if a == [] {
      assert a + [c] == [c] && [c][1..] == [];
      assert EscapeChar(p, c) + "" == EscapeChar(p, c) == "" + EscapeChar(p, c);
    } else {
      assert (a + [c])[1..] == a[1..] + [c];
      EscapeCat(p, a[1..], c);
      ThreeTexts(EscapeChar(p, a[0]), Escape(p, a[1..]), EscapeChar(p, c));
    }
  }

  lemma EscapeSnoc(p: char -> bool, s: string, i: nat)
    requires i < |s|
    ensures Escape(p, s[..i + 1]) == Escape(p, s[..i]) + EscapeChar(p, s[i])
  {
    assert s[..i + 1] == s[..i] + [s[i]];
    EscapeCat(p, s[..i], s[i]);
  }

  /** ASCII text without quotes and backslashes is written as it is, single quotes included. */
  predicate Unescaped(c: char) {
    ' ' <= c <= '~' && c != '\"' && c != '\\'
  }

  lemma {:induction false} EscapePlain(p: char -> bool, s: string)
    requires forall i :: 0 <= i < |s| ==> Unescaped(s[i])
    ensures Escape(p, s) == s
  {
    if s != [] {
      EscapePlain(p, s[1..]);
      assert [s[0]] + s[1..] == s;
    }
  }

  /** Line breaks, tabs, quotes, backslashes and the zero byte have letters; every other control
      character is written by its number. */
  lemma EscapedChars(p: char -> bool, c: char)
    ensures EscapeChar(p, '\U{0A}') == "\\n" && EscapeChar(p, '\U{0D}') == "\\r" && EscapeChar(p, '\U{09}') == "\\t"
    ensures EscapeChar(p, '\"') == "\\\"" && EscapeChar(p, '\\') == "\\\\" && EscapeChar(p, '\U{00}') == "\\0"
    ensures c < ' ' && c !in {'\U{00}', '\U{09}', '\U{0A}', '\U{0D}'} ==>
      EscapeChar(p, c) == "\\u{" + NatText(c as nat, 16) + "}"
  {
    assert "\\u" + ("{" + NatText(c as nat, 16) + "}") == ("\\u" + "{") + NatText(c as nat, 16) + "}";
    assert "\\u" + "{" == "\\u{";
  }

  /** What `format_ddlog_str` has written when it looks at `s[i]`: the text of `s[..i]`, except
      for the stretch `s[from..i]` that needs no escape and is still to be copied. */
  ghost predicate Copied(p: char -> bool, s: string, out: string, from: int, i: int) {
    0 <= from <= i <= |s| && out + s[from..i] == "\"" + Escape(p, s[..i])
  }

  lemma CopyStep(p: char -> bool, s: string, out: string, from: nat, i: nat)
    requires i < |s| && Copied(p, s, out, from, i)
    ensures EscapeChar(p, s[i]) == [s[i]] ==> Copied(p, s, out, from, i + 1)
    ensures Copied(p, s, (out + s[from..i]) + EscapeChar(p, s[i]), i + 1, i + 1)
  {
    EscapeSnoc(p, s, i);
    CopyAlgebra("\"", Escape(p, s[..i]), EscapeChar(p, s[i]), out, s, from, i);
  }

  lemma CopyAlgebra(quote: string, done: string, e: string, out: string, s: string, from: nat, i: nat)
    requires from <= i < |s| && out + s[from..i] == quote + done
    ensures out + s[from..i] + e + s[i + 1..i + 1] == quote + (done + e)
    ensures e == [s[i]] ==> out + s[from..i + 1] == quote + (done + e)
  {
    assert out + s[from..i + 1] == (out + s[from..i]) + [s[i]];
    assert (quote + done) + e == quote + (done + e);
  }

  /** The loop of `format_ddlog_str`. */
  method FormatDdlogStr(p: char -> bool, s: string) returns (out: string)
    ensures out == Quote(p, s)
  {
    out := "\"";
    var from := 0;
    for i := 0 to |s|
      invariant Copied(p, s, out, from, i)
    {
      var esc := EscapeDebug(p, s[i]);
      CopyStep(p, s, out, from, i);
      if |esc| != 1 && s[i] != '\'' {
        out := out + s[from..i];
        out := out + esc;
        from := i + 1;
      }
    }
    assert s[..|s|] == s && s[from..|s|] == s[from..];
    out := out + s[from..];
    out := out + "\"";
  }

  // ---- normal form -----------------------------------------------------------------------

  /** The record that reading the text of `r` can give at best: the text does not tell array
      kinds apart, nor an empty named struct from an empty positional one. */
  function Norm(r: Record): Record
    decreases r, 1
  {
    match r
    case Tuple(items) => Tuple(NormItems(items))
    case Array(_, items) => Array(Unknown, NormItems(items))
    case PosStruct(name, items) => PosStruct(name, NormItems(items))
    case NamedStruct(name, fields) =>
      if fields == [] then PosStruct(name, []) else NamedStruct(name, NormFields(fields))
    case _ => r
  }

  function NormItems(rs: seq<Record>): (n: seq<Record>)
    ensures |n| == |rs|
    decreases rs, 0
  {
    if rs == [] then [] else [Norm(rs[0])] + NormItems(rs[1..])
  }

  function NormFields(fs: seq<(string, Record)>): (n: seq<(string, Record)>)
    ensures |n| == |fs|
    decreases fs, 0
  {
    if fs == [] then [] else [NormField(fs[0])] + NormFields(fs[1..])
  }

  function NormField(f: (string, Record)): (string, Record)
    decreases f, 0
  {
    (f.0, Norm(f.1))
  }

  function NormUpd(u: UpdCmd): UpdCmd {
    match u
    case Insert(rel, rec) => Insert(rel, Norm(rec))
    case InsertOrUpdate(rel, rec) => InsertOrUpdate(rel, Norm(rec))
    case Delete(rel, rec) => Delete(rel, Norm(rec))
    case DeleteKey(rel, key) => DeleteKey(rel, Norm(key))
    case Modify(rel, key, mutator) => Modify(rel, Norm(key), Norm(mutator))
  }
}
