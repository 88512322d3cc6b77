/**
  The reading loop of the command line (rust/template/cmd_parser/lib.rs): input arrives line by
  line in a buffer, and commands are parsed off the buffer and handed to a callback.  The
  callback is a step function on an arbitrary state; it says whether to go on.

  The loop is correct for every parser that is prefix stable; `ParserStreams` shows that the
  parser of the command language is one.
 */
module Interact {
  import opened Stream
  import opened Records
  import opened Parser
  import opened Stability

  datatype Outcome<S> =
    | Reading(state: S, pending: string)
    | Stopped(state: S)
    | Invalid(state: S)

  type CommandParser = string -> Res<Command>

  /** A command takes something off the input. */
  ghost predicate Progresses(parse: CommandParser) {
    forall x :: parse(x).Done? ==> |parse(x).rest| < |x|
  }

  ghost predicate IgnoresSpaces(parse: CommandParser, x: string) {
    parse(Spaces(x)) == parse(x)
  }

  ghost predicate StableAt(parse: CommandParser, x: string, y: string) {
    Stable(parse(x), parse(x + y), y)
  }

  /** What the reading loop needs of a parser. */
  ghost predicate Streams(parse: CommandParser) {
    && Progresses(parse)
    && parse("") == More
    && (forall x :: IgnoresSpaces(parse, x))
    && (forall x, y :: StableAt(parse, x, y))
  }

  lemma ParserStreams()
    ensures Streams(ParseCommand)
  {
    forall x
      ensures IgnoresSpaces(ParseCommand, x)
    {
      SpacesIdem(x);
    }
    forall x, y
      ensures StableAt(ParseCommand, x, y)
    {
      CommandStable(x, y);
    }
    assert Spaces("") == "";
  }

  /** The reference: parse commands off a whole input for as long as possible.  The input that
      is left waiting is reported without leading white space. */
  ghost function Drive<S>(parse: CommandParser, cb: (S, Command) -> (S, bool), s: S, x: string): Outcome<S>
    requires Progresses(parse)
    decreases |x|
  {
    match parse(x)
    case More => Reading(s, Spaces(x))
    case Fail => Invalid(s)
    case Done(c, r) =>
      var (s', go) := cb(s, c);
      if go then Drive(parse, cb, s', r) else Stopped(s')
  }

  /** The commands of a text, parsed off one after the other, what is left of the text, and whether
      that is invalid. */
  datatype Parsed = Parsed(cmds: seq<Command>, rest: string, invalid: bool)

  ghost function AllParsed(parse: CommandParser, x: string): Parsed
    requires Progresses(parse)
    decreases |x|
  {
    match parse(x)
    case More => Parsed([], Spaces(x), false)
    case Fail => Parsed([], x, true)
    case Done(c, r) =>
      var p := AllParsed(parse, r);
      Parsed([c] + p.cmds, p.rest, p.invalid)
  }

  /** A callback on a list of commands, up to the first after which it does not go on. */
  ghost function Feed<S>(cb: (S, Command) -> (S, bool), s: S, cmds: seq<Command>): (S, bool) {
    if cmds == [] then (s, true)
    else if cb(s, cmds[0]).1 then Feed(cb, cb(s, cmds[0]).0, cmds[1..])
    else (cb(s, cmds[0]).0, false)
  }

  /** The reference hands the commands of the whole text to the callback, each once and in order,
      and ends as the callback or the text says. */
  lemma {:induction false} DriveIsFeed<S>(parse: CommandParser, cb: (S, Command) -> (S, bool), s: S, x: string)
    requires Progresses(parse)
    ensures var p := AllParsed(parse, x);
      var (s', go) := Feed(cb, s, p.cmds);
      Drive(parse, cb, s, x) == if !go then Stopped(s') else if p.invalid then Invalid(s') else Reading(s', p.rest)
    decreases |x|
  {
    match parse(x)
    case More =>
    case Fail =>
    case Done(c, r) =>
      DriveIsFeed(parse, cb, cb(s, c).0, r);
      assert ([c] + AllParsed(parse, r).cmds)[1..] == AllParsed(parse, r).cmds;
  }

  lemma DriveSpaces<S>(parse: CommandParser, cb: (S, Command) -> (S, bool), s: S, x: string)
    requires Streams(parse)
    ensures Drive(parse, cb, s, Spaces(x)) == Drive(parse, cb, s, x)
  {
    SpacesIdem(x);
    assert IgnoresSpaces(parse, x);
  }

  /** Input that arrives later is read as if it had been there from the start. */
  lemma {:induction false} DriveCat<S>(parse: CommandParser, cb: (S, Command) -> (S, bool), s: S, x: string, y: string)
    requires Streams(parse)
    ensures Drive(parse, cb, s, x + y) ==
            match Drive(parse, cb, s, x)
            case Reading(s', b) => Drive(parse, cb, s', b + y)
            case _ => Drive(parse, cb, s, x)
    decreases |x|
  {
    assert StableAt(parse, x, y);
    match parse(x)
    case More =>
      SpacesCat(x, y);
      DriveSpaces(parse, cb, s, x + y);
      DriveSpaces(parse, cb, s, Spaces(x) + y);
    case Fail =>
    case Done(c, r) =>
      var (s', go) := cb(s, c);
      if go {
        DriveSpaces(parse, cb, s', r + y);
        DriveCat(parse, cb, s', r, y);
      }
  }

  /** The input that `Drive` leaves waiting holds no complete command. */
  lemma {:induction false} PendingWaits<S>(parse: CommandParser, cb: (S, Command) -> (S, bool), s: S, x: string)
    requires Streams(parse)
    ensures Drive(parse, cb, s, x).Reading? ==>
      parse(Drive(parse, cb, s, x).pending) == More && Stripped(Drive(parse, cb, s, x).pending)
    decreases |x|
  {
    match parse(x)
    case More =>
      SpacesIdem(x);
      assert IgnoresSpaces(parse, x);
    case Fail =>
    case Done(c, r) => PendingWaits(parse, cb, cb(s, c).0, r);
  }

  function Concat(lines: seq<string>): string {
    if lines == [] then "" else Concat(lines[..|lines| - 1]) + lines[|lines| - 1]
  }

  /** What the loop makes of a full buffer.  Invalid input ends a session that reads from a
      pipe; at a terminal it only discards the rest of the buffer. */
  ghost function Buffered<S>(parse: CommandParser, cb: (S, Command) -> (S, bool), s: S, buf: string,
                             tty: bool): Outcome<S>
    requires Progresses(parse)
  {
    var o := Drive(parse, cb, s, buf);
    if o.Invalid? && tty then Reading(o.state, "") else o
  }

  /** One more line, unless the session has ended. */
  ghost function Continue<S>(parse: CommandParser, cb: (S, Command) -> (S, bool), o: Outcome<S>, line: string,
                             tty: bool): Outcome<S>
    requires Progresses(parse)
  {
    if o.Reading? then Buffered(parse, cb, o.state, o.pending + line, tty) else o
  }

  /** What the loop makes of a list of lines. */
  ghost function Session<S>(parse: CommandParser, cb: (S, Command) -> (S, bool), s: S, lines: seq<string>,
                            tty: bool): Outcome<S>
    requires Progresses(parse)
  {
    if lines == [] then Reading(s, "")
    else Continue(parse, cb, Session(parse, cb, s, lines[..|lines| - 1], tty), lines[|lines| - 1], tty)
  }

  /** From a pipe, the way the input is cut into lines does not matter. */
  lemma {:induction false} CutInvariance<S>(parse: CommandParser, cb: (S, Command) -> (S, bool), s: S,
                                            lines: seq<string>)
    requires Streams(parse)
    ensures Session(parse, cb, s, lines, false) == Drive(parse, cb, s, Concat(lines))
  {
    if lines != [] {
      var init, last := lines[..|lines| - 1], lines[|lines| - 1];
      CutInvariance(parse, cb, s, init);
      DriveCat(parse, cb, s, Concat(init), last);
    }
  }

  /** At a terminal the same holds for every input without a syntax error. */
  lemma {:induction false} TerminalCutInvariance<S>(parse: CommandParser, cb: (S, Command) -> (S, bool), s: S,
                                                    lines: seq<string>)
    requires Streams(parse)
    requires !Drive(parse, cb, s, Concat(lines)).Invalid?
    ensures Session(parse, cb, s, lines, true) == Drive(parse, cb, s, Concat(lines))
  {
    if lines != [] {
      var init, last := lines[..|lines| - 1], lines[|lines| - 1];
      DriveCat(parse, cb, s, Concat(init), last);
      TerminalCutInvariance(parse, cb, s, init);
    }
  }

  lemma {:induction false} TerminalGoesOn<S>(parse: CommandParser, cb: (S, Command) -> (S, bool), s: S,
                                             lines: seq<string>)
    requires Streams(parse)
    ensures !Session(parse, cb, s, lines, true).Invalid?
  {
    if lines != [] {
      TerminalGoesOn(parse, cb, s, lines[..|lines| - 1]);
    }
  }

  /** And only for such input. */
  lemma TerminalCutExact<S>(parse: CommandParser, cb: (S, Command) -> (S, bool), s: S, lines: seq<string>)
    requires Streams(parse)
    ensures Session(parse, cb, s, lines, true) == Drive(parse, cb, s, Concat(lines)) <==>
            !Drive(parse, cb, s, Concat(lines)).Invalid?
  {
    TerminalGoesOn(parse, cb, s, lines);
    if !Drive(parse, cb, s, Concat(lines)).Invalid? {
      TerminalCutInvariance(parse, cb, s, lines);
    }
  }

  lemma SessionSnoc<S>(parse: CommandParser, cb: (S, Command) -> (S, bool), s: S, lines: seq<string>, i: nat, tty: bool)
    requires Streams(parse)
    requires i < |lines|
    ensures Session(parse, cb, s, lines[..i + 1], tty) ==
      Continue(parse, cb, Session(parse, cb, s, lines[..i], tty), lines[i], tty)
  {
    assert lines[..i + 1][..i] == lines[..i];
  }

  /** Not so after a syntax error: at a terminal the error takes with it the rest of the line it
      is on, so whether `y` is read depends on whether a line ends before it. */
  lemma TerminalErrorTakesItsLine<S>(parse: CommandParser, cb: (S, Command) -> (S, bool), s: S, x: string, y: string)
    requires Streams(parse)
    requires Drive(parse, cb, s, x).Invalid?
    ensures Session(parse, cb, s, [x + y], true) == Reading(Drive(parse, cb, s, x).state, "")
    ensures Session(parse, cb, s, [x, y], true) == Buffered(parse, cb, Drive(parse, cb, s, x).state, y, true)
  {
    DriveCat(parse, cb, s, x, y);
    OneLine(parse, cb, s, x + y);
    OneLine(parse, cb, s, x);
    NextLine(parse, cb, s, x, y);
  }

  lemma NextLine<S>(parse: CommandParser, cb: (S, Command) -> (S, bool), s: S, x: string, y: string)
    requires Streams(parse)
    ensures Session(parse, cb, s, [x, y], true) == Continue(parse, cb, Session(parse, cb, s, [x], true), y, true)
    ensures "" + y == y
  {
    assert [x, y][..1] == [x];
  }

  lemma OneLine<S>(parse: CommandParser, cb: (S, Command) -> (S, bool), s: S, x: string)
    requires Streams(parse)
    ensures Session(parse, cb, s, [x], true) == Buffered(parse, cb, s, x, true)
  {
    assert [x][..0] == [];
    assert "" + x == x;
  }

  /** Leading white space in the buffer makes no difference. */
  lemma BufferedSpaces<S>(parse: CommandParser, cb: (S, Command) -> (S, bool), s: S, buf: string, line: string,
                          tty: bool)
    requires Streams(parse)
    ensures Buffered(parse, cb, s, Spaces(buf) + line, tty) == Buffered(parse, cb, s, buf + line, tty)
  {
    SpacesCat(buf, line);
    DriveSpaces(parse, cb, s, buf + line);
    DriveSpaces(parse, cb, s, Spaces(buf) + line);
  }

  /** How one command, or the lack of one, changes what the buffer amounts to. */
  lemma BufferedStep<S>(parse: CommandParser, cb: (S, Command) -> (S, bool), s: S, buf: string, tty: bool)
    requires Streams(parse)
    ensures var r := parse(buf);
      && (r.Done? && cb(s, r.value).1 ==>
        Buffered(parse, cb, s, buf, tty) == Buffered(parse, cb, cb(s, r.value).0, r.rest, tty))
      && (r.Done? && !cb(s, r.value).1 ==> Buffered(parse, cb, s, buf, tty) == Stopped(cb(s, r.value).0))
      && (r.More? ==> Buffered(parse, cb, s, buf, tty) == Reading(s, Spaces(buf)))
      && (r.Fail? ==> Buffered(parse, cb, s, buf, tty) == (if tty then Reading(s, "") else Invalid(s)))
    ensures buf == "" ==> Buffered(parse, cb, s, buf, tty) == Reading(s, "")
  {
  }

  /** The inner loop: parse commands off the buffer until it holds no complete one. */
  method Drain<S>(parse: CommandParser, cb: (S, Command) -> (S, bool), s0: S, buf0: string, tty: bool)
    returns (o: Outcome<S>, buf: string)
    requires Streams(parse)
    ensures o == Buffered(parse, cb, s0, buf0, tty)
    ensures o.Reading? ==> o.pending == Spaces(buf)
  {
    buf := buf0;
    var s := s0;
    var more := true;
    while more
      invariant Buffered(parse, cb, s0, buf0, tty) ==
        if more then Buffered(parse, cb, s, buf, tty) else Reading(s, Spaces(buf))
      decreases more, |buf|
    {
      BufferedStep(parse, cb, s, buf, tty);
      match parse(buf) {
        case Done(cmd, rest) =>
          var (s', go) := cb(s, cmd);
          s := s';
          BufferedStep(parse, cb, s, rest, tty);
          if !go {
            return Stopped(s), buf;
          }
          buf := rest;
          more := rest != [];
        case More =>
          more := false;
        case Fail =>
          if !tty {
            return Invalid(s), buf;
          }
          buf := "";
          more := false;
      }
    }
    o := Reading(s, Spaces(buf));
  }

  /** The loop itself.  `lines` is what successive reads return before the end of the input,
      which ends the session whatever is still waiting in the buffer. */
  method Run<S>(parse: CommandParser, cb: (S, Command) -> (S, bool), s0: S, lines: seq<string>, tty: bool)
    returns (o: Outcome<S>)
    requires Streams(parse)
    ensures o == Session(parse, cb, s0, lines, tty)
  {
    var buf := "";
    o := Reading(s0, "");
    for i := 0 to |lines|
      invariant o.Reading? && o.pending == Spaces(buf)
      invariant Session(parse, cb, s0, lines[..i], tty) == o
    {
      SessionSnoc(parse, cb, s0, lines, i, tty);
      BufferedSpaces(parse, cb, o.state, buf, lines[i], tty);
      buf := buf + lines[i];
      o, buf := Drain(parse, cb, o.state, buf, tty);
      if !o.Reading? {
        Prefix(parse, cb, s0, lines, i + 1, tty);
        return;
      }
    }
    assert lines[..|lines|] == lines;
  }

  /** A session that has ended stays ended. */
  lemma {:induction false} Prefix<S>(parse: CommandParser, cb: (S, Command) -> (S, bool), s: S, lines: seq<string>,
                                     i: nat, tty: bool)
    requires Streams(parse)
    requires i <= |lines| && !Session(parse, cb, s, lines[..i], tty).Reading?
    ensures Session(parse, cb, s, lines, tty) == Session(parse, cb, s, lines[..i], tty)
    decreases |lines|
  {
    if i < |lines| {
      var init := lines[..|lines| - 1];
      assert init[..i] == lines[..i];
      Prefix(parse, cb, s, init, i, tty);
    } else {
      assert lines[..i] == lines;
    }
  }
}
