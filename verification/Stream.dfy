/**
  Streaming parse results and the lexical rules of the command parser
  (rust/template/cmd_parser/parse.rs).

  The rules are nom 4 parsers over a partial input: a rule either succeeds with a value and
  the unread rest (`Done`), rejects the input whatever follows (`Fail`), or cannot decide
  before more input arrives (`More`, nom's `Incomplete`).  Ordered choice and options move on
  after `Fail` only; `More` is passed up at once.
 */
module Stream {
  import opened Wrappers

  datatype Res<+T> = Done(value: T, rest: string) | Fail | More {
    predicate IsFailure() {
      !Done?
    }

    function PropagateFailure<U>(): Res<U>
      requires IsFailure()
    {
      if Fail? then Fail else More
    }

    function Extract(): (T, string)
      requires Done?
    {
      (value, rest)
    }
  }

  /** Ordered choice: the second rule counts only if the first rejects. */
  function Alt<T>(a: Res<T>, b: Res<T>): Res<T> {
    if a.Fail? then b else a
  }

  /** An optional rule tried on `x`. */
  function Opt<T>(a: Res<T>, x: string): Res<Option<T>> {
    match a
    case Done(v, r) => Done(Some(v), r)
    case Fail => Done(None, x)
    case More => More
  }

  predicate IsSpace(c: char) {
    c == ' ' || c == '\t' || c == '\r' || c == '\n'
  }

  /** Drops leading white space; at the end of the input it succeeds rather than wait. */
  function Spaces(x: string): (r: string)
    ensures |r| <= |x| && Stripped(r)
  {
    if x != [] && IsSpace(x[0]) then Spaces(x[1..]) else x
  }

  predicate Stripped(x: string) {
    x != [] ==> !IsSpace(x[0])
  }

  /** What every rule that ends in `spaces` promises: it waits on an empty input, and when it
      succeeds it has read something and left no leading white space. */
  ghost predicate Token<T>(x: string, r: Res<T>) {
    && (x == [] ==> r == More)
    && (r.Done? ==> |r.rest| < |x| && Stripped(r.rest))
  }

  function Tag(s: string, x: string): (r: Res<()>)
    requires s != []
    ensures r.Done? ==> |r.rest| < |x|
  {
    if s <= x then Done((), x[|s|..])
    else if x <= s then More
    else Fail
  }

  function Sym(s: string, x: string): (r: Res<()>)
    requires s != []
    ensures Token(x, r)
  {
    var (_, r) :- Tag(s, x);
    Done((), Spaces(r))
  }

  /** The longest prefix whose characters satisfy `p`; waits if the input ends inside it. */
  function Run(p: char -> bool, x: string): (r: Res<string>)
    ensures r != Fail && (x == [] ==> r == More)
    ensures r.Done? ==> r.rest != [] && |r.value| + |r.rest| == |x|
  {
    if x == [] then More
    else if p(x[0]) then
      var (t, r) :- Run(p, x[1..]);
      Done([x[0]] + t, r)
    else Done("", x)
  }

  function Run1(p: char -> bool, x: string): (r: Res<string>)
    ensures x == [] ==> r == More
    ensures r.Done? ==> r.rest != [] && r.value != [] && |r.value| + |r.rest| == |x|
  {
    var (t, r) :- Run(p, x);
    if t == "" then Fail else Done(t, r)
  }

  /** Everything before the first `c`; waits until one is seen. */
  function TakeUntil(c: char, x: string): Res<string> {
    Run(d => d != c, x)
  }

  predicate IsDigit(c: char) {
    '0' <= c <= '9'
  }

  predicate IsHexDigit(c: char) {
    IsDigit(c) || 'a' <= c <= 'f' || 'A' <= c <= 'F'
  }

  predicate IsAlpha(c: char) {
    'a' <= c <= 'z' || 'A' <= c <= 'Z'
  }

  predicate IsIdChar(c: char) {
    IsAlpha(c) || IsDigit(c) || c == '_'
  }

  /** Identifier characters and `::` separators, as many as there are. */
  function IdentTail(x: string): (r: Res<string>)
    ensures r != Fail && (x == [] ==> r == More)
    ensures r.Done? ==> |r.rest| <= |x|
  {
    if x == [] || x == ":" then More
    else if IsIdChar(x[0]) then
      var (t, r) :- IdentTail(x[1..]);
      Done([x[0]] + t, r)
    else if x[0] == ':' && x[1] == ':' then
      var (t, r) :- IdentTail(x[2..]);
      Done(x[..2] + t, r)
    else Done("", x)
  }

  function Ident(x: string): (r: Res<string>)
    ensures Token(x, r)
  {
    if x == [] then More
    else if IsAlpha(x[0]) || x[0] == '_' then
      var (t, r) :- IdentTail(x[1..]);
      Done([x[0]] + t, Spaces(r))
    else Fail
  }

  /** The characters that may follow a backslash in a string literal. */
  function Unescape(c: char): Option<char> {
    match c
    case '\\' => Some('\\')
    case '\"' => Some('\"')
    case '\'' => Some('\'')
    case 'n' => Some('\n')
    case 'a' => Some('\U{07}')
    case 'b' => Some('\U{08}')
    case 'f' => Some('\U{0C}')
    case 'r' => Some('\r')
    case 't' => Some('\t')
    case 'v' => Some('\U{0B}')
    case '?' => Some('?')
    case _ => None
  }

  /** The inside of a string literal up to and including its closing quote. */
  function StrBody(x: string): (r: Res<string>)
    ensures r.Done? ==> |r.rest| < |x|
  {
    if x == [] || x == "\\" then More
    else if x[0] == '\"' then Done("", x[1..])
    else if x[0] == '\\' then
      if Unescape(x[1]).None? then Fail
      else
        var (t, r) :- StrBody(x[2..]);
        Done([Unescape(x[1]).value] + t, r)
    else
      var (t, r) :- StrBody(x[1..]);
      Done([x[0]] + t, r)
  }

  function StrLit(x: string): (r: Res<string>)
    ensures Token(x, r)
  {
    var (s, r) :- Alt(EmptyLit(x), QuotedLit(x));
    Done(s, Spaces(r))
  }

  function EmptyLit(x: string): (r: Res<string>)
    ensures x == [] ==> r == More
    ensures r.Done? ==> |r.rest| < |x|
  {
    var (_, r) :- Tag("\"\"", x);
    Done("", r)
  }

  function QuotedLit(x: string): (r: Res<string>)
    ensures r.Done? ==> |r.rest| < |x|
  {
    var (_, r) :- Tag("\"", x);
    StrBody(r)
  }

  function DigitValue(c: char): nat
    requires IsHexDigit(c)
  {
    if IsDigit(c) then (c as int) - ('0' as int)
    else if 'a' <= c <= 'f' then (c as int) - ('a' as int) + 10
    else (c as int) - ('A' as int) + 10
  }

  predicate IsNumberText(bs: string) {
    forall i :: 0 <= i < |bs| ==> IsHexDigit(bs[i]) || bs[i] == '_'
  }

  /** Decimal and hexadecimal. */
  type Base = b: nat | b == 10 || b == 16 witness 10

  function Scale(n: nat, base: Base): nat {
    if base == 10 then n * 10 else n * 16
  }

  /** The number written by `bs` in the given base; underscores are skipped. */
  function NumberValue(bs: string, base: Base): nat
    requires IsNumberText(bs)
  {
    if bs == [] then 0
    else
      var init, last := bs[..|bs| - 1], bs[|bs| - 1];
      if last == '_' then NumberValue(init, base)
      else Scale(NumberValue(init, base), base) + DigitValue(last)
  }

  function HexTag(x: string): (r: Res<()>)
    ensures x == [] ==> r == More
    ensures r.Done? ==> |r.rest| < |x|
  {
    Alt(Tag("0x", x), Tag("0X", x))
  }

  lemma RunText(p: char -> bool, x: string)
    requires Run(p, x).Done?
    ensures forall i :: 0 <= i < |Run(p, x).value| ==> p(Run(p, x).value[i])
  {
  }

  /** A number: one or more digits, then digits and underscores, then white space. */
  function Number(p: char -> bool, base: Base, x: string): (r: Res<nat>)
    requires forall c :: p(c) ==> IsHexDigit(c)
    ensures Token(x, r)
  {
    var (b1, r1) :- Run1(p, x);
    var q := c => p(c) || c == '_';
    var (b2, r2) :- Run(q, r1);
    RunText(p, x);
    RunText(q, r1);
    Done(NumberValue(b1 + b2, base), Spaces(r2))
  }

  function HexVal(x: string): (r: Res<int>)
    ensures Token(x, r)
  {
    var (_, r) :- HexTag(x);
    Number(IsHexDigit, 16, r)
  }

  function DecVal(x: string): (r: Res<int>)
    ensures Token(x, r)
  {
    Number(IsDigit, 10, x)
  }

  function NegVal(x: string): (r: Res<int>)
    ensures Token(x, r)
  {
    var (_, r) :- Sym("-", x);
    var (v, r') :- Alt(HexVal(r), DecVal(r));
    Done(-v, r')
  }

  function BigintVal(x: string): (r: Res<int>)
    ensures Token(x, r)
  {
    Alt(HexVal(x), Alt(DecVal(x), NegVal(x)))
  }

  function OptSign(x: string): (r: Res<Option<()>>)
    ensures r != Fail && (x == [] ==> r == More)
    ensures r.Done? ==> |r.rest| <= |x|
  {
    Opt(Alt(Tag("+", x), Tag("-", x)), x)
  }

  function Exponent(x: string): (r: Res<()>)
    ensures x == [] ==> r == More
    ensures r.Done? ==> |r.rest| < |x|
  {
    var (_, r1) :- Alt(Tag("e", x), Tag("E", x));
    var (_, r2) :- OptSign(r1);
    var (_, r3) :- Run1(IsDigit, r2);
    Done((), r3)
  }

  /** `.`, optional digits, optional exponent. */
  function Fraction(x: string): (r: Res<()>)
    ensures x == [] ==> r == More
    ensures r.Done? ==> |r.rest| < |x|
  {
    var (_, r1) :- Tag(".", x);
    var (_, r2) :- Opt(Run1(IsDigit, r1), r1);
    var (_, r3) :- Opt(Exponent(r2), r2);
    Done((), r3)
  }

  function DigitsFirst(x: string): (r: Res<()>)
    ensures x == [] ==> r == More
    ensures r.Done? ==> |r.rest| < |x|
  {
    var (_, r) :- Run1(IsDigit, x);
    Alt(Fraction(r), Exponent(r))
  }

  function PointFirst(x: string): (r: Res<()>)
    ensures x == [] ==> r == More
    ensures r.Done? ==> |r.rest| < |x|
  {
    var (_, r1) :- Tag(".", x);
    var (_, r2) :- Run1(IsDigit, r1);
    var (_, r3) :- Opt(Exponent(r2), r2);
    Done((), r3)
  }

  /** A floating point literal; an integer literal is not one. */
  function RecognizeFloat(x: string): (r: Res<string>)
    ensures x == [] ==> r == More
    ensures r.Done? ==> |r.rest| < |x|
  {
    var (_, r1) :- OptSign(x);
    var (_, r2) :- Alt(DigitsFirst(r1), PointFirst(r1));
    Done(x[..|x| - |r2|], r2)
  }
}
