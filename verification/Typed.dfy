/**
  Commands as people type them, in forms that the recorder does not write
  (rust/template/cmd_parser/parse.rs): updates with the fields of the record in parentheses,
  queries with several arguments, and the commands that only the command line has.
 */
module Typed {
  import opened Stream
  import opened Wrappers
  import opened Records
  import opened Parser
  import opened RoundTrip
  import opened Recorder
  import CommandRoundTrip
  import opened CommandLoop
  import Interact
  import Replay

  // ---- updates ---------------------------------------------------------------------------

  /** The fields of a record: positional, or named, at least one. */
  datatype Args = Positional(items: seq<Record>) | Named(fields: seq<(string, Record)>)

  predicate ArgsOk(p: char -> bool, args: Args) {
    match args
    case Positional(items) => ItemsFloatless(items) && ItemNamesOk(items) && ItemTextsOk(p, items)
    case Named(fields) => fields != [] && FieldsFloatless(fields) && FieldNamesOk(fields) && FieldTextsOk(p, fields)
  }

  function ArgsText(p: char -> bool, args: Args): string {
    match args
    case Positional(items) => DisplayItems(p, items)
    case Named(fields) => DisplayFields(p, fields)
  }

  /** The record of a relation: its constructor has the name of the relation. */
  function ArgsRecord(rel: string, args: Args): Record {
    match args
    case Positional(items) => PosStruct(rel, NormItems(items))
    case Named(fields) => NamedStruct(rel, NormFields(fields))
  }

  lemma ArgsRead(p: char -> bool, rel: string, args: Args, k: string)
    requires ArgsOk(p, args) && Closer(k)
    ensures var x := ArgsText(p, args) + k;
      x != [] && !IsSpace(x[0]) && ConstructorArgs(rel, x) == Done(ArgsRecord(rel, args), k)
  {
    match args
    case Positional(items) =>
      InsideRead(p, items, k);
      RoundTrip.Positional(rel, DisplayItems(p, items) + k);
    case Named(fields) =>
      NamedRead(p, rel, fields, k);
  }

  lemma NamedRead(p: char -> bool, rel: string, fields: seq<(string, Record)>, k: string)
    requires fields != [] && FieldsFloatless(fields) && FieldNamesOk(fields) && FieldTextsOk(p, fields) && Closer(k)
    ensures var x := DisplayFields(p, fields) + k;
      x != [] && x[0] == '.' && ConstructorArgs(rel, x) == Done(NamedStruct(rel, NormFields(fields)), k)
  {
    FieldsSplit(p, fields, k);
    FieldTailRead(p, fields[1..], k);
    FieldRead(p, fields[0], FieldTail(p, fields[1..], k));
  }

  lemma EnclosedRead(rel: string, inner: string, rec: Record, k: string)
    requires inner != [] && !IsSpace(inner[0]) && ConstructorArgs(rel, inner) == Done(rec, ")" + k)
    ensures Enclosed("(", rel, "(" + inner, ")") == Done(rec, Spaces(k))
  {
    SymRead("(", inner);
    SymRead(")", k);
  }

  lemma NotBracketed(x: string)
    requires x != [] && x[0] == '('
    ensures Bracketed(x) == Fail
  {
    TagHead("[", x);
  }

  /** A relation and the fields of its record in parentheses. */
  lemma RelArgsRead(p: char -> bool, rel: string, args: Args, k: string)
    requires IsIdent(rel) && ArgsOk(p, args)
    ensures RelRecord(rel + ("(" + (ArgsText(p, args) + (")" + k)))) == Done((rel, ArgsRecord(rel, args)), Spaces(k))
  {
    var y := "(" + (ArgsText(p, args) + (")" + k));
    ArgsRead(p, rel, args, ")" + k);
    EnclosedRead(rel, ArgsText(p, args) + (")" + k), ArgsRecord(rel, args), k);
    NotBracketed(y);
    IdentRead(rel, y);
    RelFrom(rel + y, rel, y, ArgsRecord(rel, args), Spaces(k));
  }

  lemma RelFrom(x: string, rel: string, y: string, v: Record, rest: string)
    requires Ident(x) == Done(rel, y) && Bracketed(y) == Fail && Enclosed("(", rel, y, ")") == Done(v, rest)
    ensures RelRecord(x) == Done((rel, v), rest)
  {
  }

  /** The three updates that take a whole record. */
  datatype Kind = AsInsert | AsInsertOrUpdate | AsDelete

  function Word(kind: Kind): string {
    match kind
    case AsInsert => "insert"
    case AsInsertOrUpdate => "insert_or_update"
    case AsDelete => "delete"
  }

  function Upd(kind: Kind, rel: string, rec: Record): UpdCmd {
    match kind
    case AsInsert => Insert(rel, rec)
    case AsInsertOrUpdate => InsertOrUpdate(rel, rec)
    case AsDelete => Delete(rel, rec)
  }

  lemma ByKind(kind: Kind, arg: string, rr: (string, Record), rest: string)
    requires arg != [] && !IsSpace(arg[0]) && arg[0] != '[' && arg[0] != '(' && RelRecord(arg) == Done(rr, rest)
    ensures ParseUpdate(Word(kind) + (" " + arg)) == Done(Upd(kind, rr.0, rr.1), rest)
  {
    match kind
    case AsInsert =>
      WordRead("insert", arg);
    case AsInsertOrUpdate =>
      WordRead("insert_or_update", arg);
      ShorterInsert(arg);
    case AsDelete =>
      WordRead("delete", arg);
      NotInsert("delete" + (" " + arg));
  }

  /** `insert R(..)`, `insert_or_update R(..)` and `delete R(..)`, with positional or named fields, are
      read as updates with a record whose constructor has the name of the relation. */
  lemma TypedUpdate(p: char -> bool, kind: Kind, rel: string, args: Args, k: string)
    requires IsIdent(rel) && ArgsOk(p, args)
    ensures ParseUpdate(Word(kind) + (" " + (rel + ("(" + (ArgsText(p, args) + (")" + k)))))) ==
            Done(Upd(kind, rel, ArgsRecord(rel, args)), Spaces(k))
  {
    var y := "(" + (ArgsText(p, args) + (")" + k));
    RelArgsRead(p, rel, args, k);
    IdentHead(rel, y);
    ByKind(kind, rel + y, (rel, ArgsRecord(rel, args)), Spaces(k));
  }

  /** As commands: `;` ends the batch, and `,` does not. */
  lemma TypedUpdateCommand(p: char -> bool, kind: Kind, rel: string, args: Args, last: bool, k: string)
    requires IsIdent(rel) && ArgsOk(p, args)
    ensures var end := if last then ";" else ",";
      ParseCommand(Word(kind) + (" " + (rel + ("(" + (ArgsText(p, args) + (")" + (end + k))))))) ==
      Done(Update(Upd(kind, rel, ArgsRecord(rel, args)), last), Spaces(k))
  {
    var end := if last then ";" else ",";
    TypedUpdate(p, kind, rel, args, end + k);
    WordHead(kind, " " + (rel + ("(" + (ArgsText(p, args) + (")" + (end + k))))));
    Replay.OnlyUpdate(Word(kind) + (" " + (rel + ("(" + (ArgsText(p, args) + (")" + (end + k)))))));
    EndRead(last, k);
  }

  lemma WordHead(kind: Kind, t: string)
    ensures var x := Word(kind) + t; |x| > 1 && (x[0] == 'i' || (x[0] == 'd' && x[1] == 'e'))
  {
  }

  lemma EndRead(last: bool, k: string)
    ensures var x := (if last then ";" else ",") + k; Spaces(x) == x && Last(x) == Done(last, Spaces(k))
  {
    if last {
      SymRead(";", k);
    } else {
      SymRead(",", k);
      TagHead(";", "," + k);
    }
  }

  // ---- queries with any number of arguments ----------------------------------------------

  /** One argument is the key itself; several, or none, are a tuple. */
  lemma TypedQuery(p: char -> bool, idx: string, args: seq<Record>, k: string)
    requires IsIdent(idx) && ItemsFloatless(args) && ItemNamesOk(args) && ItemTextsOk(p, args)
    ensures ParseCommand("query_index" + (" " + (idx + ("(" + (DisplayItems(p, args) + (")" + (";" + k))))))) ==
            Done(QueryIndex(idx, if |args| == 1 then Norm(args[0]) else Tuple(NormItems(args))), Spaces(k))
  {
    var arg := DisplayItems(p, args) + (")" + (";" + k));
    InsideRead(p, args, ")" + (";" + k));
    QueryItems(idx, arg, NormItems(args), k);
    CommandRoundTrip.OnlyQuery("query_index" + (" " + (idx + ("(" + arg))));
    if |args| == 1 {
      assert NormItems(args) == [Norm(args[0])];
    }
  }

  lemma QueryItems(idx: string, arg: string, args: seq<Record>, k: string)
    requires IsIdent(idx) && arg != [] && !IsSpace(arg[0]) && Items(arg) == Done(args, ")" + (";" + k))
    ensures QueryIndexCmd("query_index" + (" " + (idx + ("(" + arg)))) ==
            Done(QueryIndex(idx, if |args| == 1 then args[0] else Tuple(args)), Spaces(k))
  {
    QueryName(idx, arg);
    SymRead("(", arg);
    QueryClose(k);
    EndOf(QueryIndex(idx, if |args| == 1 then args[0] else Tuple(args)), k);
    QueryFrom("query_index" + (" " + (idx + ("(" + arg))), idx + ("(" + arg), idx, "(" + arg, arg, args,
              ")" + (";" + k), ";" + k, Spaces(k));
  }

  lemma QueryClose(k: string)
    ensures Sym(")", ")" + (";" + k)) == Done((), ";" + k)
  {
    SymRead(")", ";" + k);
  }

  lemma QueryFrom(x: string, y: string, idx: string, z: string, arg: string, args: seq<Record>, close: string,
                  end: string, rest: string)
    requires Sym("query_index", x) == Done((), y) && Ident(y) == Done(idx, z) && Sym("(", z) == Done((), arg)
    requires Items(arg) == Done(args, close) && Sym(")", close) == Done((), end)
    requires var c := QueryIndex(idx, if |args| == 1 then args[0] else Tuple(args));
      Keyword(";", end, c) == Done(c, rest)
    ensures QueryIndexCmd(x) == Done(QueryIndex(idx, if |args| == 1 then args[0] else Tuple(args)), rest)
  {
  }

  // ---- commands of the command line ------------------------------------------------------

  /** The end of a command. */
  lemma EndOf<T>(v: T, k: string)
    ensures Keyword(";", ";" + k, v) == Done(v, Spaces(k)) && Spaces(";" + k) == ";" + k
  {
    SymRead(";", k);
  }

  lemma PlainRead(word: string, c: Command, k: string)
    requires word != []
    ensures Plain(word, c, word + (";" + k)) == Done(c, Spaces(k))
  {
    SymRead(word, ";" + k);
    EndOf(c, k);
  }

  lemma TypedTimestamp(k: string)
    ensures ParseCommand("timestamp" + (";" + k)) == Done(Timestamp, Spaces(k))
  {
    var x := "timestamp" + (";" + k);
    PlainRead("timestamp", Timestamp, k);
    NotStart(x);
    FirstGroup(x);
  }

  lemma NotStart(x: string)
    requires x != [] && x[0] == 't'
    ensures Plain("start", Start, x) == Fail && CommitCmd(x) == Fail && Spaces(x) == x
  {
    TagHead("start", x);
    TagHead("commit", x);
  }

  lemma FirstGroup(x: string)
    requires Spaces(x) == x
    requires Plain("start", Start, x) == Fail && CommitCmd(x) == Fail && Plain("timestamp", Timestamp, x) != Fail
    ensures ParseCommand(x) == Plain("timestamp", Timestamp, x)
  {
  }

  /** Commands that the first group of rules rejects. */
  lemma SecondGroup(x: string)
    requires x != [] && !IsSpace(x[0])
    requires x[0] != 's' && x[0] != 'c' && x[0] != 't' && x[0] != '#' && x[0] != 'p' && x[0] != 'd'
    ensures ParseCommand(x) == Commands2(x)
  {
    Heads1(x);
    NoCommands1(x);
    assert Spaces(x) == x;
  }

  lemma TypedExit(k: string)
    ensures ParseCommand("exit" + (";" + k)) == Done(Exit, Spaces(k))
  {
    var x := "exit" + (";" + k);
    PlainRead("exit", Exit, k);
    SecondGroup(x);
    Heads2(x);
    ExitFirst(x);
  }

  lemma ExitFirst(x: string)
    requires ClearCmd(x) == Fail && SleepCmd(x) == Fail
    ensures Plain("exit", Exit, x) != Fail ==> Commands2(x) == Plain("exit", Exit, x)
    ensures Plain("exit", Exit, x) == Fail && EchoCmd(x) != Fail ==> Commands2(x) == EchoCmd(x)
    ensures Plain("exit", Exit, x) == Fail && EchoCmd(x) == Fail && LogLevelCmd(x) != Fail ==>
      Commands2(x) == LogLevelCmd(x)
  {
  }

  /** The text of `echo` is what stands between the blanks after the keyword and the semicolon. */
  lemma TypedEcho(text: string, k: string)
    requires text != "" ==> !IsSpace(text[0])
    requires forall i :: 0 <= i < |text| ==> text[i] != ';'
    ensures ParseCommand("echo" + (" " + (text + (";" + k)))) == Done(Echo(text), Spaces(k))
  {
    EchoRead(text, k);
    EchoPicked("echo" + (" " + (text + (";" + k))), Echo(text), Spaces(k));
  }

  lemma EchoPicked(x: string, c: Command, rest: string)
    requires |x| > 1 && x[0] == 'e' && x[1] == 'c' && EchoCmd(x) == Done(c, rest)
    ensures ParseCommand(x) == Done(c, rest)
  {
    SecondGroup(x);
    EchoSecond(x);
  }

  lemma EchoSecond(x: string)
    requires |x| > 1 && x[0] == 'e' && x[1] == 'c' && EchoCmd(x) != Fail
    ensures Commands2(x) == EchoCmd(x)
  {
    NotExit(x);
    TagHead("clear", x);
    TagHead("mssleep", x);
    ExitFirst(x);
  }

  lemma NotExit(x: string)
    requires |x| > 1 && x[0] == 'e' && x[1] == 'c'
    ensures Plain("exit", Exit, x) == Fail
  {
    TagDiffers("exit", x, 1);
  }

  lemma EchoRead(text: string, k: string)
    requires text != "" ==> !IsSpace(text[0])
    requires forall i :: 0 <= i < |text| ==> text[i] != ';'
    ensures EchoCmd("echo" + (" " + (text + (";" + k)))) == Done(Echo(text), Spaces(k))
  {
    var t := text + (";" + k);
    WordRead("echo", t);
    RunRead(d => d != ';', text, ";" + k);
    assert TakeUntil(';', t) == Done(text, ";" + k);
    EndOf(Echo(text), k);
  }

  lemma TypedLogLevel(level: int, k: string)
    ensures ParseCommand("log_level" + (" " + (IntText(level) + (";" + k)))) == Done(LogLevel(level), Spaces(k))
  {
    var x := "log_level" + (" " + (IntText(level) + (";" + k)));
    LogLevelRead(level, k);
    SecondGroup(x);
    Heads2(x);
    ExitFirst(x);
  }

  lemma LogLevelRead(level: int, k: string)
    ensures LogLevelCmd("log_level" + (" " + (IntText(level) + (";" + k)))) == Done(LogLevel(level), Spaces(k))
  {
    var t := IntText(level) + (";" + k);
    IntRead(t, level, ";" + k);
    WordRead("log_level", t);
    EndOf(LogLevel(level), k);
  }

  lemma TypedSleep(ms: nat, k: string)
    ensures ParseCommand("mssleep" + (" " + (NatText(ms, 10) + (";" + k)))) == Done(Sleep(ms), Spaces(k))
  {
    var x := "mssleep" + (" " + (NatText(ms, 10) + (";" + k)));
    SleepRead(ms, k);
    SecondGroup(x);
    TagHead("clear", x);
    SleepFirst(x);
  }

  lemma SleepFirst(x: string)
    requires ClearCmd(x) == Fail && SleepCmd(x) != Fail
    ensures Commands2(x) == SleepCmd(x)
  {
  }

  lemma SleepRead(ms: nat, k: string)
    ensures SleepCmd("mssleep" + (" " + (NatText(ms, 10) + (";" + k)))) == Done(Sleep(ms), Spaces(k))
  {
    var t := NatText(ms, 10) + (";" + k);
    DecRead(ms, ";" + k);
    assert IsDigit(t[0]);
    WordRead("mssleep", t);
    EndOf(Sleep(ms), k);
  }

  /** `dump` without a relation. */
  lemma TypedDump(k: string)
    ensures ParseCommand("dump" + (";" + k)) == Done(Dump(None), Spaces(k))
  {
    SymRead("dump", ";" + k);
    EndOf(Dump(None), k);
    assert Ident(";" + k) == Fail;
    PickedDump("dump" + (";" + k));
  }

  // ---- when a session ends ---------------------------------------------------------------

  /** From a pipe, a session stops at the first command that does not go well, and at `exit`. */
  lemma StopsAt<Upd>(parse: Interact.CommandParser, env: Env<Upd>, s: (State<Upd>, bool), x: string, c: Command,
                     rest: string)
    requires Interact.Streams(parse) && parse(x) == Done(c, rest)
    ensures var r := Step(env, false, s.0, c).1;
      c.Exit? || !r.ok ==>
        Interact.Drive(parse, Replay.Handler(env), s, x) == Interact.Stopped((Step(env, false, s.0, c).0, r.ok))
  {
    match c
    case Update(u, last) => UpdateExact(env, false, s.0, u, last);
    case _ => NonUpdateExact(env, false, s.0, c);
  }

  lemma ExitStops<Upd>(parse: Interact.CommandParser, env: Env<Upd>, s: (State<Upd>, bool), x: string, rest: string)
    requires Interact.Streams(parse) && parse(x) == Done(Exit, rest)
    ensures var batch := if s.0.upds == [] then [] else [Apply(s.0.upds)];
      Interact.Drive(parse, Replay.Handler(env), s, x) == Interact.Stopped((State([], s.0.log + batch), true))
  {
    var batch: seq<Event<Upd>> := if s.0.upds == [] then [] else [Apply(s.0.upds)];
    NonUpdateExact(env, false, s.0, Exit);
    assert s.0.log + batch + [] == s.0.log + batch;
    StopsAt(parse, env, s, x, Exit, rest);
  }

  /** Nothing is read after `exit;`, and updates that were waiting have gone to the engine. */
  lemma ExitEndsSession<Upd>(env: Env<Upd>, s: (State<Upd>, bool), k: string)
    ensures Interact.Streams(ParseCommand)
    ensures var batch := if s.0.upds == [] then [] else [Apply(s.0.upds)];
      Interact.Drive(ParseCommand, Replay.Handler(env), s, "exit" + (";" + k)) ==
      Interact.Stopped((State([], s.0.log + batch), true))
  {
    Interact.ParserStreams();
    TypedExit(k);
    ExitStops(ParseCommand, env, s, "exit" + (";" + k), Spaces(k));
  }
}
