/**
  The grammar of records, updates and commands, rule by rule
  (rust/template/cmd_parser/parse.rs).
 */
module Parser {
  import opened Stream
  import opened Wrappers
  import opened Records

  function BoolVal(x: string): (r: Res<Record>)
    ensures Token(x, r)
  {
    Alt(Keyword("true", x, Bool(true)), Keyword("false", x, Bool(false)))
  }

  function Keyword<T>(s: string, x: string, v: T): (r: Res<T>)
    requires s != []
    ensures Token(x, r)
  {
    var (_, r) :- Sym(s, x);
    Done(v, r)
  }

  function StringVal(x: string): (r: Res<Record>)
    ensures Token(x, r)
  {
    var (s, r) :- StrLit(x);
    Done(Str(s), r)
  }

  function SerializedVal(x: string): (r: Res<Record>)
    ensures Token(x, r)
  {
    var (_, r1) :- Tag("@", x);
    var (format, r2) :- Ident(r1);
    var (data, r3) :- StrLit(r2);
    Done(Serialized(format, data), r3)
  }

  function FloatVal(x: string): (r: Res<Record>)
    ensures Token(x, r)
  {
    var (literal, r) :- RecognizeFloat(x);
    Done(Double(literal), Spaces(r))
  }

  function IntVal(x: string): (r: Res<Record>)
    ensures Token(x, r)
  {
    var (i, r) :- BigintVal(x);
    Done(Int(i), r)
  }

  function ParseRecord(x: string): (r: Res<Record>)
    ensures Token(x, r)
    decreases |x|, 2
  {
    Alt(BoolVal(x), Alt(StringVal(x), Alt(SerializedVal(x), Alt(TupleVal(x),
    Alt(ArrayVal(x), Alt(StructVal(x), Alt(FloatVal(x), IntVal(x))))))))
  }

  function TupleVal(x: string): (r: Res<Record>)
    ensures Token(x, r)
    decreases |x|, 1
  {
    var (_, r1) :- Sym("(", x);
    var (items, r2) :- Items(r1);
    var (_, r3) :- Sym(")", r2);
    Done(Tuple(items), r3)
  }

  function ArrayVal(x: string): (r: Res<Record>)
    ensures Token(x, r)
    decreases |x|, 1
  {
    var (_, r1) :- Sym("[", x);
    var (items, r2) :- Items(r1);
    var (_, r3) :- Sym("]", r2);
    Done(Array(Unknown, items), r3)
  }

  function StructVal(x: string): (r: Res<Record>)
    ensures Token(x, r)
    decreases |x|, 1
  {
    var (name, r1) :- Ident(x);
    var (args, r2) :- Opt(Enclosed("{", name, r1, "}"), r1);
    Done(if args.Some? then args.value else PosStruct(name, []), r2)
  }

  /** Constructor arguments between the two given brackets. */
  function Enclosed(open: string, name: string, x: string, close: string): (r: Res<Record>)
    requires open != [] && close != []
    ensures Token(x, r)
    decreases |x|, 1
  {
    var (_, r1) :- Sym(open, x);
    var (rec, r2) :- ConstructorArgs(name, r1);
    var (_, r3) :- Sym(close, r2);
    Done(rec, r3)
  }

  function ConstructorArgs(name: string, x: string): (r: Res<Record>)
    ensures x == [] ==> r == More
    ensures r.Done? ==> |r.rest| <= |x|
    ensures r.Done? && Stripped(x) ==> Stripped(r.rest)
    decreases |x|, 5
  {
    Alt(NamedArgs(name, x), PosArgs(name, x))
  }

  function NamedArgs(name: string, x: string): (r: Res<Record>)
    ensures Token(x, r)
    decreases |x|, 3
  {
    var (f, r1) :- NamedRecord(x);
    var (fs, r2) :- MoreFields(r1);
    Done(NamedStruct(name, [f] + fs), r2)
  }

  function PosArgs(name: string, x: string): (r: Res<Record>)
    ensures x == [] ==> r == More
    ensures r.Done? ==> |r.rest| <= |x|
    ensures r.Done? && Stripped(x) ==> Stripped(r.rest)
    decreases |x|, 4
  {
    var (items, r) :- Items(x);
    Done(PosStruct(name, items), r)
  }

  function NamedRecord(x: string): (r: Res<(string, Record)>)
    ensures Token(x, r)
    decreases |x|, 2
  {
    var (_, r1) :- Sym(".", x);
    var (name, r2) :- Ident(r1);
    var (_, r3) :- Sym("=", r2);
    var (v, r4) :- ParseRecord(r3);
    Done((name, v), r4)
  }

  /** `separated_list!(",", record)`: stops before the separator after which no record follows. */
  function Items(x: string): (r: Res<seq<Record>>)
    ensures r != Fail && (x == [] ==> r == More)
    ensures r.Done? ==> |r.rest| <= |x|
    ensures r.Done? && Stripped(x) ==> Stripped(r.rest)
    decreases |x|, 3
  {
    match ParseRecord(x)
    case More => More
    case Fail => Done([], x)
    case Done(v, r1) =>
      var (vs, r2) :- MoreItems(r1);
      Done([v] + vs, r2)
  }

  function MoreItems(x: string): (r: Res<seq<Record>>)
    ensures r != Fail && (x == [] ==> r == More)
    ensures r.Done? ==> |r.rest| <= |x|
    ensures r.Done? && Stripped(x) ==> Stripped(r.rest)
    decreases |x|, 3
  {
    match Sym(",", x)
    case More => More
    case Fail => Done([], x)
    case Done(_, r1) =>
      match ParseRecord(r1)
      case More => More
      case Fail => Done([], x)
      case Done(v, r2) =>
        var (vs, r3) :- MoreItems(r2);
        Done([v] + vs, r3)
  }

  function MoreFields(x: string): (r: Res<seq<(string, Record)>>)
    ensures r != Fail && (x == [] ==> r == More)
    ensures r.Done? ==> |r.rest| <= |x|
    ensures r.Done? && Stripped(x) ==> Stripped(r.rest)
    decreases |x|, 3
  {
    match Sym(",", x)
    case More => More
    case Fail => Done([], x)
    case Done(_, r1) =>
      match NamedRecord(r1)
      case More => More
      case Fail => Done([], x)
      case Done(f, r2) =>
        var (fs, r3) :- MoreFields(r2);
        Done([f] + fs, r3)
  }

  // ---- updates ---------------------------------------------------------------------------

  function Bracketed(x: string): (r: Res<Record>)
    ensures Token(x, r)
  {
    var (_, r1) :- Sym("[", x);
    var (rec, r2) :- ParseRecord(r1);
    var (_, r3) :- Sym("]", r2);
    Done(rec, r3)
  }

  function RelRecord(x: string): (r: Res<(string, Record)>)
    ensures Token(x, r)
  {
    var (rel, r1) :- Ident(x);
    var (rec, r2) :- Alt(Bracketed(r1), Enclosed("(", rel, r1, ")"));
    Done((rel, rec), r2)
  }

  function RelKey(x: string): (r: Res<(string, Record)>)
    ensures Token(x, r)
  {
    var (rel, r1) :- Ident(x);
    var (rec, r2) :- ParseRecord(r1);
    Done((rel, rec), r2)
  }

  function InsertUpd(x: string): (r: Res<UpdCmd>)
    ensures Token(x, r)
  {
    var (_, r1) :- Sym("insert", x);
    var (rr, r2) :- RelRecord(r1);
    Done(Insert(rr.0, rr.1), r2)
  }

  function InsertOrUpdateUpd(x: string): (r: Res<UpdCmd>)
    ensures Token(x, r)
  {
    var (_, r1) :- Sym("insert_or_update", x);
    var (rr, r2) :- RelRecord(r1);
    Done(InsertOrUpdate(rr.0, rr.1), r2)
  }

  function DeleteUpd(x: string): (r: Res<UpdCmd>)
    ensures Token(x, r)
  {
    var (_, r1) :- Sym("delete", x);
    var (rr, r2) :- RelRecord(r1);
    Done(Delete(rr.0, rr.1), r2)
  }

  function DeleteKeyUpd(x: string): (r: Res<UpdCmd>)
    ensures Token(x, r)
  {
    var (_, r1) :- Sym("delete_key", x);
    var (rr, r2) :- RelKey(r1);
    Done(DeleteKey(rr.0, rr.1), r2)
  }

  function Mutator(x: string): (r: Res<Record>)
    ensures Token(x, r)
  {
    var (_, r1) :- Sym("<-", x);
    ParseRecord(r1)
  }

  function ModifyUpd(x: string): (r: Res<UpdCmd>)
    ensures Token(x, r)
  {
    var (_, r1) :- Sym("modify", x);
    var (rr, r2) :- RelKey(r1);
    var (mutator, r3) :- Mutator(r2);
    Done(Modify(rr.0, rr.1, mutator), r3)
  }

  function ParseUpdate(x: string): (r: Res<UpdCmd>)
    ensures Token(x, r)
  {
    Alt(InsertUpd(x), Alt(InsertOrUpdateUpd(x), Alt(DeleteUpd(x), Alt(DeleteKeyUpd(x), ModifyUpd(x)))))
  }

  // ---- commands --------------------------------------------------------------------------

  /** `word ;` */
  function Plain(word: string, c: Command, x: string): (r: Res<Command>)
    requires word != []
    ensures Token(x, r)
  {
    var (_, r1) :- Sym(word, x);
    Keyword(";", r1, c)
  }

  function CommitCmd(x: string): (r: Res<Command>)
    ensures Token(x, r)
  {
    var (_, r1) :- Sym("commit", x);
    var (delta, r2) :- Opt(Sym("dump_changes", r1), r1);
    Keyword(";", r2, Commit(delta.Some?))
  }

  function CommentCmd(x: string): (r: Res<Command>)
    ensures Token(x, r)
  {
    var (_, r1) :- Sym("#", x);
    var (_, r2) :- TakeUntil('\n', r1);
    Keyword("\n", r2, Comment)
  }

  function OnOff(x: string): (r: Res<bool>)
    ensures Token(x, r)
  {
    Alt(Keyword("on", x, true), Keyword("off", x, false))
  }

  /** `word on` or `word off`. */
  function Switch(word: string, x: string): (r: Res<bool>)
    requires word != []
    ensures Token(x, r)
  {
    var (_, r1) :- Sym(word, x);
    OnOff(r1)
  }

  function ProfileSwitch(word: string, on: bool): ProfileCmd {
    if word == "cpu" then Cpu(on) else if word == "change" then Change(on) else Timely(on)
  }

  /** `profile`, optionally followed by one kind of switch. */
  function ProfileCommand(word: string, x: string): (r: Res<Command>)
    requires word != []
    ensures Token(x, r)
  {
    var (_, r1) :- Sym("profile", x);
    var (on, r2) :- Opt(Switch(word, r1), r1);
    Keyword(";", r2, Profile(if on.Some? then Some(ProfileSwitch(word, on.value)) else None))
  }

  function DumpCmd(x: string): (r: Res<Command>)
    ensures Token(x, r)
  {
    var (_, r1) :- Sym("dump", x);
    var (rel, r2) :- Opt(Ident(r1), r1);
    Keyword(";", r2, Dump(rel))
  }

  function ClearCmd(x: string): (r: Res<Command>)
    ensures Token(x, r)
  {
    var (_, r1) :- Sym("clear", x);
    var (rel, r2) :- Ident(r1);
    Keyword(";", r2, Clear(rel))
  }

  function SleepCmd(x: string): (r: Res<Command>)
    ensures Token(x, r)
  {
    var (_, r1) :- Sym("mssleep", x);
    var (ms, r2) :- DecVal(r1);
    Keyword(";", r2, Sleep(ms))
  }

  function EchoCmd(x: string): (r: Res<Command>)
    ensures Token(x, r)
  {
    var (_, r1) :- Sym("echo", x);
    var (text, r2) :- TakeUntil(';', r1);
    Keyword(";", r2, Echo(text))
  }

  function LogLevelCmd(x: string): (r: Res<Command>)
    ensures Token(x, r)
  {
    var (_, r1) :- Sym("log_level", x);
    var (level, r2) :- BigintVal(r1);
    Keyword(";", r2, LogLevel(level))
  }

  function QueryIndexCmd(x: string): (r: Res<Command>)
    ensures Token(x, r)
  {
    var (_, r1) :- Sym("query_index", x);
    var (idx, r2) :- Ident(r1);
    var (_, r3) :- Sym("(", r2);
    var (args, r4) :- Items(r3);
    var (_, r5) :- Sym(")", r4);
    Keyword(";", r5, QueryIndex(idx, if |args| == 1 then args[0] else Tuple(args)))
  }

  function DumpIndexCmd(x: string): (r: Res<Command>)
    ensures Token(x, r)
  {
    var (_, r1) :- Sym("dump_index", x);
    var (idx, r2) :- Ident(r1);
    Keyword(";", r2, DumpIndex(idx))
  }

  /** `;` closes a batch of updates, `,` continues it. */
  function Last(x: string): (r: Res<bool>)
    ensures Token(x, r)
  {
    Alt(Keyword(";", x, true), Keyword(",", x, false))
  }

  function UpdateCmd(x: string): (r: Res<Command>)
    ensures Token(x, r)
  {
    var (upd, r1) :- ParseUpdate(x);
    var (last, r2) :- Last(r1);
    Done(Update(upd, last), r2)
  }

  function Commands1(x: string): (r: Res<Command>)
    ensures Token(x, r)
  {
    Alt(Plain("start", Start, x), Alt(CommitCmd(x), Alt(Plain("timestamp", Timestamp, x),
    Alt(CommentCmd(x), Alt(ProfileCommand("cpu", x),
    Alt(ProfileCommand("change", x),
    Alt(ProfileCommand("timely", x), DumpCmd(x))))))))
  }

  function Commands2(x: string): (r: Res<Command>)
    ensures Token(x, r)
  {
    Alt(ClearCmd(x), Alt(SleepCmd(x), Alt(Plain("exit", Exit, x), Alt(EchoCmd(x),
    Alt(LogLevelCmd(x), Alt(Plain("rollback", Rollback, x), Alt(QueryIndexCmd(x),
    Alt(DumpIndexCmd(x), UpdateCmd(x)))))))))
  }

  /** The seventeen alternatives in source order, after leading white space. */
  function ParseCommand(x: string): (r: Res<Command>)
    ensures Token(Spaces(x), r)
  {
    Alt(Commands1(Spaces(x)), Commands2(Spaces(x)))
  }
}
