/**
  The command recorder (rust/template/differential_datalog/src/replay.rs): every API call is
  written out as a command, so that feeding the file to the command line replays the session.
  Relations and indexes are identified by name.
 */
module Recorder {
  import opened Stream
  import opened Wrappers
  import opened Records
  import opened Parser
  import opened RoundTrip

  datatype Call =
    | TransactionStart
    | TransactionCommit(dumpChanges: bool)
    | TransactionRollback
    | ApplyUpdates(upds: seq<UpdCmd>)
    | ClearRelation(rel: string)
    | QueryByIndex(idx: string, key: Record)
    | DumpByIndex(idx: string)
    | DumpTable(rel: string)
    | EnableProfiling(profile: ProfileCmd)
    | DumpProfile(tag: Option<string>)

  // ---- what is written -------------------------------------------------------------------

  function RelText(word: string, rel: string, d: string): string {
    word + " " + rel + "[" + d + "]"
  }

  function KeyText(word: string, rel: string, d: string): string {
    word + " " + rel + " " + d
  }

  function UpdText(p: char -> bool, u: UpdCmd): string {
    match u
    case Insert(rel, rec) => RelText("insert", rel, Display(p, rec))
    case InsertOrUpdate(rel, rec) => RelText("insert_or_update", rel, Display(p, rec))
    case Delete(rel, rec) => RelText("delete", rel, Display(p, rec))
    case DeleteKey(rel, key) => KeyText("delete_key", rel, Display(p, key))
    case Modify(rel, key, mutator) => KeyText("modify", rel, Display(p, key)) + " <- " + Display(p, mutator)
  }

  /** A batch: a comma after every update but the last, which gets a semicolon. */
  function BatchText(p: char -> bool, us: seq<UpdCmd>): string {
    if us == [] then ""
    else UpdText(p, us[0]) + (if |us| == 1 then ";\n" else ",\n") + BatchText(p, us[1..])
  }

  /** An iterator over updates that looks one ahead. */
  class Peeking {
    var left: seq<UpdCmd>

    constructor (updates: seq<UpdCmd>)
      ensures left == updates
    {
      left := updates;
    }

    /** The next update, and whether it is the last. */
    method Next() returns (next: Option<(UpdCmd, bool)>)
      modifies this
      ensures old(left) == [] ==> next == None && left == []
      ensures old(left) != [] ==> next == Some((old(left)[0], |old(left)| == 1)) && left == old(left)[1..]
    {
      if left == [] {
        return None;
      }
      var elem := left[0];
      left := left[1..];
      var last := left == [];
      return Some((elem, last));
    }
  }

  /** `do_record_updates`. */
  method RecordUpdates(p: char -> bool, us: seq<UpdCmd>) returns (out: string)
    ensures out == BatchText(p, us)
  {
    var iter := new Peeking(us);
    out := "";
    while true
      invariant fresh(iter) && out + BatchText(p, iter.left) == BatchText(p, us)
      decreases |iter.left|
    {
      ghost var left := iter.left;
      var next := iter.Next();
      if next.None? {
        break;
      }
      BatchStep(p, left, out);
      out := out + UpdText(p, next.value.0);
      out := out + (if !next.value.1 then ",\n" else ";\n");
    }
  }

  lemma BatchStep(p: char -> bool, us: seq<UpdCmd>, out: string)
    requires us != []
    ensures var sep := if |us| == 1 then ";\n" else ",\n";
      out + BatchText(p, us) == out + UpdText(p, us[0]) + sep + BatchText(p, us[1..])
  {
    Three(out, UpdText(p, us[0]), if |us| == 1 then ";\n" else ",\n", BatchText(p, us[1..]));
  }

  lemma Three(a: string, b: string, c: string, d: string)
    ensures a + (b + c + d) == a + b + c + d
  {
  }

  function ProfileWord(c: ProfileCmd): string {
    if c.Cpu? then "cpu" else if c.Change? then "change" else "timely"
  }

  function ProfileText(c: ProfileCmd): string {
    "profile" + " " + ProfileWord(c) + " " + (if c.on then "on" else "off") + ";\n"
  }

  function CallText(p: char -> bool, c: Call): string {
    match c
    case TransactionStart => "start;\n"
    case TransactionCommit(dump) => if dump then "commit dump_changes;\n" else "commit;\n"
    case TransactionRollback => "rollback;\n"
    case ApplyUpdates(us) => BatchText(p, us)
    case ClearRelation(rel) => "clear " + rel + ";\n"
    case QueryByIndex(idx, key) => "query_index " + idx + "(" + Display(p, key) + ");\n"
    case DumpByIndex(idx) => "dump_index " + idx + ";\n"
    case DumpTable(rel) => "dump " + rel + ";\n"
    case EnableProfiling(profile) => ProfileText(profile)
    case DumpProfile(tag) => "profile" + (if tag.Some? then " " + tag.value else "") + ";\n"
  }

  function LogText(p: char -> bool, cs: seq<Call>): string {
    if cs == [] then "" else CallText(p, cs[0]) + LogText(p, cs[1..])
  }

  /** The command of a call that is recorded as a single one. */
  function CallCommand(c: Call): Command
    requires !c.ApplyUpdates?
  {
    match c
    case TransactionStart => Start
    case TransactionCommit(dump) => Commit(dump)
    case TransactionRollback => Rollback
    case ClearRelation(rel) => Clear(rel)
    case QueryByIndex(idx, key) => QueryIndex(idx, Norm(key))
    case DumpByIndex(idx) => DumpIndex(idx)
    case DumpTable(rel) => Dump(Some(rel))
    case EnableProfiling(profile) => Profile(Some(profile))
    case DumpProfile(_) => Profile(None)
  }

  // ---- what can be replayed --------------------------------------------------------------

  predicate RecordOk(p: char -> bool, r: Record) {
    Floatless(r) && NamesOk(r) && TextsOk(p, r)
  }

  predicate UpdOk(p: char -> bool, u: UpdCmd) {
    match u
    case Insert(rel, rec) => IsIdent(rel) && RecordOk(p, rec)
    case InsertOrUpdate(rel, rec) => IsIdent(rel) && RecordOk(p, rec)
    case Delete(rel, rec) => IsIdent(rel) && RecordOk(p, rec)
    case DeleteKey(rel, key) => IsIdent(rel) && RecordOk(p, key)
    case Modify(rel, key, mutator) => IsIdent(rel) && RecordOk(p, key) && RecordOk(p, mutator)
  }

  predicate CallOk(p: char -> bool, c: Call) {
    match c
    case ApplyUpdates(us) => forall i :: 0 <= i < |us| ==> UpdOk(p, us[i])
    case ClearRelation(rel) => IsIdent(rel)
    case QueryByIndex(idx, key) => IsIdent(idx) && RecordOk(p, key)
    case DumpByIndex(idx) => IsIdent(idx)
    case DumpTable(rel) => IsIdent(rel)
    case DumpProfile(tag) => tag.Some? ==> Blank(tag.value)
    case _ => true
  }

  // ---- reading the pieces ----------------------------------------------------------------

  /** A word, a blank, and text that is not blank. */
  lemma WordRead(word: string, t: string)
    requires word != [] && t != [] && !IsSpace(t[0])
    ensures Sym(word, word + (" " + t)) == Done((), t)
  {
    SymRead(word, " " + t);
    assert (" " + t)[1..] == t;
  }

  lemma IdentHead(n: string, t: string)
    requires IsIdent(n)
    ensures n + t != [] && (n + t)[0] == n[0] && !IsSpace(n[0]) && n[0] != '[' && n[0] != '('
  {
  }

  /** A record before a closing bracket. */
  lemma ClosedRead(p: char -> bool, rec: Record, k: string)
    requires RecordOk(p, rec) && Closer(k)
    ensures ParseRecord(Display(p, rec) + k) == Done(Norm(rec), k)
    ensures Display(p, rec) + k != [] && !IsSpace((Display(p, rec) + k)[0])
  {
    DisplayHead(p, rec);
    HeadStays(Display(p, rec), k);
    CloserFirst(k);
    RecordRead(p, rec, k);
  }

  lemma HeadStays(t: string, k: string)
    requires t != [] && !IsSpace(t[0])
    ensures t + k != [] && !IsSpace((t + k)[0])
  {
  }

  lemma CloserFirst(k: string)
    requires Closer(k)
    ensures Delimited(k) && Spaces(k) == k
  {
  }

  lemma BracketedRead(p: char -> bool, rec: Record, t: string)
    requires RecordOk(p, rec)
    ensures Bracketed("[" + (Display(p, rec) + ("]" + t))) == Done(Norm(rec), Spaces(t))
  {
    ClosedRead(p, rec, "]" + t);
    BracketedBy(Display(p, rec) + ("]" + t), Norm(rec), t);
  }

  lemma BracketedBy(inner: string, v: Record, t: string)
    requires inner != [] && !IsSpace(inner[0]) && ParseRecord(inner) == Done(v, "]" + t)
    ensures Bracketed("[" + inner) == Done(v, Spaces(t))
  {
    SymRead("[", inner);
    SymRead("]", t);
  }

  lemma RelRecordRead(p: char -> bool, rel: string, rec: Record, t: string)
    requires IsIdent(rel) && RecordOk(p, rec)
    ensures RelRecord(rel + ("[" + (Display(p, rec) + ("]" + t)))) == Done((rel, Norm(rec)), Spaces(t))
  {
    BracketedRead(p, rec, t);
    RelBy(rel, "[" + (Display(p, rec) + ("]" + t)), Norm(rec), Spaces(t));
  }

  lemma RelBy(rel: string, y: string, v: Record, rest: string)
    requires IsIdent(rel) && y != [] && y[0] == '[' && Bracketed(y) == Done(v, rest)
    ensures RelRecord(rel + y) == Done((rel, v), rest)
  {
    IdentBracket(rel, y);
    RelFrom(rel + y, rel, y, v, rest);
  }

  lemma IdentBracket(rel: string, y: string)
    requires IsIdent(rel) && y != [] && y[0] == '['
    ensures Ident(rel + y) == Done(rel, y)
  {
    IdentRead(rel, y);
  }

  lemma RelFrom(x: string, rel: string, y: string, v: Record, rest: string)
    requires Ident(x) == Done(rel, y) && Bracketed(y) == Done(v, rest)
    ensures RelRecord(x) == Done((rel, v), rest)
  {
  }

  lemma RelKeyRead(p: char -> bool, rel: string, key: Record, t: string)
    requires IsIdent(rel) && RecordOk(p, key) && Delimited(t)
    ensures RelKey(rel + (" " + (Display(p, key) + t))) == Done((rel, Norm(key)), Spaces(t))
  {
    var inner := Display(p, key) + t;
    IdentRead(rel, " " + inner);
    DisplayHead(p, key);
    assert (" " + inner)[1..] == inner;
    assert Spaces(inner) == inner;
    RecordRead(p, key, t);
  }

  /** A longer keyword is not taken for a shorter one: what is left of it reads as a relation
      name, and the real relation name that follows opens no record. */
  lemma LongerKeyword(suffix: string, t: string)
    requires IsIdent(suffix) && t != [] && !IsSpace(t[0]) && t[0] != '[' && t[0] != '('
    ensures RelRecord(suffix + (" " + t)) == Fail
  {
    IdentBlank(suffix, t);
    TagHead("[", t);
    TagHead("(", t);
    assert Bracketed(t) == Fail && Enclosed("(", suffix, t, ")") == Fail;
  }

  lemma Suffixes()
    ensures IsIdent("_or_update") && IsIdent("_key") && IsIdent("_index")
  {
    var a, b, c := "_or_update", "_key", "_index";
    IdCharsBody(a[1..]);
    IdCharsBody(b[1..]);
    IdCharsBody(c[1..]);
  }

  lemma {:induction false} IdCharsBody(s: string)
    requires forall i :: 0 <= i < |s| ==> IsIdChar(s[i])
    ensures IdentBody(s)
  {
    if s != [] {
      IdCharsBody(s[1..]);
    }
  }

  // ---- updates ---------------------------------------------------------------------------

  lemma RelTextSplit(word: string, rel: string, d: string, t: string)
    ensures RelText(word, rel, d) + t == word + (" " + (rel + ("[" + (d + ("]" + t)))))
  {
  }

  lemma KeyTextSplit(word: string, rel: string, d: string, t: string)
    ensures KeyText(word, rel, d) + t == word + (" " + (rel + (" " + (d + t))))
  {
  }

  lemma InsertRead(p: char -> bool, rel: string, rec: Record, t: string)
    requires IsIdent(rel) && RecordOk(p, rec)
    ensures ParseUpdate(RelText("insert", rel, Display(p, rec)) + t) == Done(Insert(rel, Norm(rec)), Spaces(t))
  {
    var arg := rel + ("[" + (Display(p, rec) + ("]" + t)));
    RelTextSplit("insert", rel, Display(p, rec), t);
    IdentHead(rel, "[" + (Display(p, rec) + ("]" + t)));
    WordRead("insert", arg);
    RelRecordRead(p, rel, rec, t);
  }

  lemma InsertOrUpdateRead(p: char -> bool, rel: string, rec: Record, t: string)
    requires IsIdent(rel) && RecordOk(p, rec)
    ensures ParseUpdate(RelText("insert_or_update", rel, Display(p, rec)) + t) ==
      Done(InsertOrUpdate(rel, Norm(rec)), Spaces(t))
  {
    var arg := rel + ("[" + (Display(p, rec) + ("]" + t)));
    var x := "insert_or_update" + (" " + arg);
    RelTextSplit("insert_or_update", rel, Display(p, rec), t);
    IdentHead(rel, "[" + (Display(p, rec) + ("]" + t)));
    WordRead("insert_or_update", arg);
    RelRecordRead(p, rel, rec, t);
    Suffixes();
    ShorterInsert(arg);
  }

  lemma Split(a: string, b: string, c: string)
    ensures (a + b) + c == a + (b + c)
  {
  }

  lemma LongInsert(arg: string)
    ensures "insert_or_update" + (" " + arg) == "insert" + ("_or_update" + (" " + arg))
  {
    assert "insert" + "_or_update" == "insert_or_update";
    Split("insert", "_or_update", " " + arg);
  }

  lemma ShorterInsert(arg: string)
    requires arg != [] && !IsSpace(arg[0]) && arg[0] != '[' && arg[0] != '('
    ensures InsertUpd("insert_or_update" + (" " + arg)) == Fail
  {
    Suffixes();
    var y := "_or_update" + (" " + arg);
    LongInsert(arg);
    SymRead("insert", y);
    assert Spaces(y) == y;
    LongerKeyword("_or_update", arg);
    assert RelRecord(y) == Fail;
  }

  lemma LongDelete(arg: string)
    ensures "delete_key" + (" " + arg) == "delete" + ("_key" + (" " + arg))
  {
    assert "delete" + "_key" == "delete_key";
    Split("delete", "_key", " " + arg);
  }

  lemma ShorterDelete(arg: string)
    requires arg != [] && !IsSpace(arg[0]) && arg[0] != '[' && arg[0] != '('
    ensures DeleteUpd("delete_key" + (" " + arg)) == Fail
  {
    Suffixes();
    var y := "_key" + (" " + arg);
    LongDelete(arg);
    SymRead("delete", y);
    assert Spaces(y) == y;
    LongerKeyword("_key", arg);
    assert RelRecord(y) == Fail;
  }

  /** Texts whose first letter rules out the rules before the one wanted. */
  lemma NotInsert(x: string)
    requires x != [] && x[0] != 'i'
    ensures InsertUpd(x) == Fail && InsertOrUpdateUpd(x) == Fail
  {
    TagHead("insert", x);
    TagHead("insert_or_update", x);
  }

  lemma NotDelete(x: string)
    requires x != [] && x[0] != 'd'
    ensures DeleteUpd(x) == Fail && DeleteKeyUpd(x) == Fail
  {
    TagHead("delete", x);
    TagHead("delete_key", x);
  }

  lemma DeleteRead(p: char -> bool, rel: string, rec: Record, t: string)
    requires IsIdent(rel) && RecordOk(p, rec)
    ensures ParseUpdate(RelText("delete", rel, Display(p, rec)) + t) == Done(Delete(rel, Norm(rec)), Spaces(t))
  {
    var arg := rel + ("[" + (Display(p, rec) + ("]" + t)));
    RelTextSplit("delete", rel, Display(p, rec), t);
    IdentHead(rel, "[" + (Display(p, rec) + ("]" + t)));
    WordRead("delete", arg);
    RelRecordRead(p, rel, rec, t);
    NotInsert("delete" + (" " + arg));
  }

  lemma DeleteKeyRead(p: char -> bool, rel: string, key: Record, t: string)
    requires IsIdent(rel) && RecordOk(p, key) && Delimited(t)
    ensures ParseUpdate(KeyText("delete_key", rel, Display(p, key)) + t) == Done(DeleteKey(rel, Norm(key)), Spaces(t))
  {
    var arg := rel + (" " + (Display(p, key) + t));
    KeyTextSplit("delete_key", rel, Display(p, key), t);
    IdentHead(rel, " " + (Display(p, key) + t));
    RelKeyRead(p, rel, key, t);
    OnlyDeleteKey(arg, (rel, Norm(key)), Spaces(t));
  }

  lemma OnlyDeleteKey(arg: string, rr: (string, Record), rest: string)
    requires arg != [] && !IsSpace(arg[0]) && arg[0] != '[' && arg[0] != '('
    requires RelKey(arg) == Done(rr, rest)
    ensures ParseUpdate("delete_key" + (" " + arg)) == Done(DeleteKey(rr.0, rr.1), rest)
  {
    WordRead("delete_key", arg);
    NotInsert("delete_key" + (" " + arg));
    ShorterDelete(arg);
  }

  lemma ArrowText(m: string)
    requires m != [] && !IsSpace(m[0])
    ensures Delimited(" <- " + m)
    ensures Spaces(" <- " + m) == "<-" + (" " + m)
    ensures Sym("<-", "<-" + (" " + m)) == Done((), m)
  {
    WordRead("<-", m);
    assert (" <- " + m)[1..] == "<-" + (" " + m);
  }

  lemma ModifyRead(p: char -> bool, rel: string, key: Record, mutator: Record, t: string)
    requires IsIdent(rel) && RecordOk(p, key) && RecordOk(p, mutator) && Delimited(t)
    ensures ParseUpdate((KeyText("modify", rel, Display(p, key)) + " <- " + Display(p, mutator)) + t) ==
      Done(Modify(rel, Norm(key), Norm(mutator)), Spaces(t))
  {
    var m := Display(p, mutator) + t;
    var arg := rel + (" " + (Display(p, key) + (" <- " + m)));
    ModifyText(rel, Display(p, key), Display(p, mutator), t);
    IdentHead(rel, " " + (Display(p, key) + (" <- " + m)));
    DisplayHead(p, mutator);
    ArrowText(m);
    RelKeyRead(p, rel, key, " <- " + m);
    RecordRead(p, mutator, t);
    OnlyModify(arg, (rel, Norm(key)), m, Norm(mutator), Spaces(t));
  }

  lemma OnlyModify(arg: string, rr: (string, Record), m: string, mutator: Record, rest: string)
    requires arg != [] && !IsSpace(arg[0]) && m != [] && !IsSpace(m[0])
    requires RelKey(arg) == Done(rr, "<-" + (" " + m)) && ParseRecord(m) == Done(mutator, rest)
    ensures ParseUpdate("modify" + (" " + arg)) == Done(Modify(rr.0, rr.1, mutator), rest)
  {
    ArrowText(m);
    WordRead("modify", arg);
    NotInsert("modify" + (" " + arg));
    NotDelete("modify" + (" " + arg));
  }

  lemma ModifyText(rel: string, d: string, m: string, t: string)
    ensures (KeyText("modify", rel, d) + " <- " + m) + t == "modify" + (" " + (rel + (" " + (d + (" <- " + (m + t))))))
  {
    var k := KeyText("modify", rel, d);
    KeyTextSplit("modify", rel, d, " <- " + (m + t));
    assert (k + " <- " + m) + t == k + (" <- " + (m + t));
  }

  /** Every recorded update is read back, although `insert` and `delete` are tried before
      `insert_or_update` and `delete_key`, which they begin. */
  lemma UpdateRead(p: char -> bool, u: UpdCmd, t: string)
    requires UpdOk(p, u) && Delimited(t)
    ensures ParseUpdate(UpdText(p, u) + t) == Done(NormUpd(u), Spaces(t))
  {
    match u
    case Insert(rel, rec) => InsertRead(p, rel, rec, t);
    case InsertOrUpdate(rel, rec) => InsertOrUpdateRead(p, rel, rec, t);
    case Delete(rel, rec) => DeleteRead(p, rel, rec, t);
    case DeleteKey(rel, key) => DeleteKeyRead(p, rel, key, t);
    case Modify(rel, key, mutator) => ModifyRead(p, rel, key, mutator, t);
  }

  // ---- commands --------------------------------------------------------------------------

  /** The first group of command rules, by first letter. */
  lemma Heads1(x: string)
    requires x != []
    ensures x[0] != 's' ==> Plain("start", Start, x) == Fail
    ensures x[0] != 'c' ==> CommitCmd(x) == Fail
    ensures x[0] != 't' ==> Plain("timestamp", Timestamp, x) == Fail
    ensures x[0] != '#' ==> CommentCmd(x) == Fail
    ensures x[0] != 'p' ==> ProfileCommand("cpu", x) == Fail
    ensures x[0] != 'p' ==> ProfileCommand("change", x) == Fail
    ensures x[0] != 'p' ==> ProfileCommand("timely", x) == Fail
    ensures x[0] != 'd' ==> DumpCmd(x) == Fail
  {
    TagHead("start", x);
    TagHead("commit", x);
    TagHead("timestamp", x);
    TagHead("#", x);
    TagHead("profile", x);
    TagHead("dump", x);
  }

  /** The second group. */
  lemma Heads2(x: string)
    requires x != []
    ensures x[0] != 'c' ==> ClearCmd(x) == Fail
    ensures x[0] != 'm' ==> SleepCmd(x) == Fail
    ensures x[0] != 'e' ==> Plain("exit", Exit, x) == Fail
    ensures x[0] != 'e' ==> EchoCmd(x) == Fail
    ensures x[0] != 'l' ==> LogLevelCmd(x) == Fail
    ensures x[0] != 'r' ==> Plain("rollback", Rollback, x) == Fail
    ensures x[0] != 'q' ==> QueryIndexCmd(x) == Fail
    ensures x[0] != 'd' ==> DumpIndexCmd(x) == Fail
  {
    TagHead("clear", x);
    TagHead("mssleep", x);
    TagHead("exit", x);
    TagHead("echo", x);
    TagHead("log_level", x);
    TagHead("rollback", x);
    TagHead("query_index", x);
    TagHead("dump_index", x);
  }

  /** The command rule that decides, by the first letter of the text. */
  lemma Picked(x: string)
    requires x != [] && !IsSpace(x[0])
    ensures x[0] == 'r' && Plain("rollback", Rollback, x) != Fail ==> ParseCommand(x) == Plain("rollback", Rollback, x)
    ensures x[0] == 'c' && CommitCmd(x) != Fail ==> ParseCommand(x) == CommitCmd(x)
    ensures x[0] == 'c' && CommitCmd(x) == Fail && ClearCmd(x) != Fail ==> ParseCommand(x) == ClearCmd(x)
  {
    Heads1(x);
    Heads2(x);
    assert Spaces(x) == x;
  }

  lemma PickedDump(x: string)
    requires x != [] && x[0] == 'd'
    ensures DumpCmd(x) != Fail ==> ParseCommand(x) == DumpCmd(x)
    ensures DumpCmd(x) == Fail && DumpIndexCmd(x) != Fail ==> ParseCommand(x) == DumpIndexCmd(x)
    ensures DumpCmd(x) == Fail && DumpIndexCmd(x) == Fail ==> ParseCommand(x) == UpdateCmd(x)
  {
    Heads1(x);
    Heads2(x);
    assert Spaces(x) == x;
  }

  lemma PickedQuery(x: string)
    requires x != [] && x[0] == 'q' && QueryIndexCmd(x) != Fail
    ensures ParseCommand(x) == QueryIndexCmd(x)
  {
    assert Spaces(x) == x;
    assert Commands1(x) == Fail by {
      Heads1(x);
      NoCommands1(x);
    }
    assert Commands2(x) == QueryIndexCmd(x) by {
      Heads2(x);
      QueryFirst(x);
    }
  }

  lemma QueryFirst(x: string)
    requires ClearCmd(x) == Fail && SleepCmd(x) == Fail && Plain("exit", Exit, x) == Fail && EchoCmd(x) == Fail
    requires LogLevelCmd(x) == Fail && Plain("rollback", Rollback, x) == Fail && QueryIndexCmd(x) != Fail
    ensures Commands2(x) == QueryIndexCmd(x)
  {
  }

  lemma PickedUpdate(x: string)
    requires x != [] && (x[0] == 'i' || x[0] == 'm') && SleepCmd(x) == Fail
    ensures ParseCommand(x) == UpdateCmd(x)
  {
    assert Spaces(x) == x;
    assert Commands1(x) == Fail by {
      Heads1(x);
      NoCommands1(x);
    }
    assert Commands2(x) == UpdateCmd(x) by {
      Heads2(x);
      OnlyUpdateCmd(x);
    }
  }

  lemma NoCommands1(x: string)
    requires Plain("start", Start, x) == Fail && CommitCmd(x) == Fail && Plain("timestamp", Timestamp, x) == Fail
    requires CommentCmd(x) == Fail && DumpCmd(x) == Fail
    requires ProfileCommand("cpu", x) == Fail && ProfileCommand("change", x) == Fail &&
      ProfileCommand("timely", x) == Fail
    ensures Commands1(x) == Fail
  {
  }

  lemma OnlyUpdateCmd(x: string)
    requires ClearCmd(x) == Fail && SleepCmd(x) == Fail && Plain("exit", Exit, x) == Fail && EchoCmd(x) == Fail
    requires LogLevelCmd(x) == Fail && Plain("rollback", Rollback, x) == Fail
    requires QueryIndexCmd(x) == Fail && DumpIndexCmd(x) == Fail
    ensures Commands2(x) == UpdateCmd(x)
  {
  }

  lemma PickedStart(x: string)
    requires x != [] && x[0] == 's' && Plain("start", Start, x) != Fail
    ensures ParseCommand(x) == Plain("start", Start, x)
  {
    assert Spaces(x) == x;
  }

  lemma PickedProfile(x: string)
    requires x != [] && x[0] == 'p'
    ensures ProfileCommand("cpu", x) != Fail ==> ParseCommand(x) == ProfileCommand("cpu", x)
    ensures ProfileCommand("cpu", x) == Fail && ProfileCommand("change", x) != Fail ==>
      ParseCommand(x) == ProfileCommand("change", x)
    ensures ProfileCommand("cpu", x) == Fail && ProfileCommand("change", x) == Fail ==>
      ProfileCommand("timely", x) != Fail ==> ParseCommand(x) == ProfileCommand("timely", x)
  {
    Heads1(x);
    assert Spaces(x) == x;
  }

  /** The end of a recorded line. */
  lemma LineEnd<T>(v: T, k: string)
    ensures Keyword(";", ";\n" + k, v) == Done(v, Spaces(k))
    ensures Spaces(";\n" + k) == ";\n" + k
  {
    assert (";\n" + k)[1..] == "\n" + k && ("\n" + k)[1..] == k;
    TagHead(";", ";\n" + k);
  }

  lemma BareRead(word: string, c: Command, k: string)
    requires word != []
    ensures Plain(word, c, word + (";\n" + k)) == Done(c, Spaces(k))
  {
    SymRead(word, ";\n" + k);
    LineEnd(c, k);
  }

  lemma StartRead(k: string)
    ensures ParseCommand("start" + (";\n" + k)) == Done(Start, Spaces(k))
  {
    BareRead("start", Start, k);
    PickedStart("start" + (";\n" + k));
  }

  lemma RollbackRead(k: string)
    ensures ParseCommand("rollback" + (";\n" + k)) == Done(Rollback, Spaces(k))
  {
    BareRead("rollback", Rollback, k);
    Picked("rollback" + (";\n" + k));
  }

  lemma CommitRule(line: string)
    requires line != [] && line[0] == ';'
    ensures CommitCmd("commit" + line) == Keyword(";", line, Commit(false))
  {
    SymRead("commit", line);
    assert Spaces(line) == line;
    TagHead("dump_changes", line);
  }

  lemma CommitRead(k: string)
    ensures ParseCommand("commit" + (";\n" + k)) == Done(Commit(false), Spaces(k))
  {
    CommitRule(";\n" + k);
    LineEnd(Commit(false), k);
    Picked("commit" + (";\n" + k));
  }

  lemma CommitDumpRead(k: string)
    ensures ParseCommand("commit" + (" " + ("dump_changes" + (";\n" + k)))) == Done(Commit(true), Spaces(k))
  {
    var line := ";\n" + k;
    WordRead("commit", "dump_changes" + line);
    SymRead("dump_changes", line);
    LineEnd(Commit(true), k);
    Picked("commit" + (" " + ("dump_changes" + line)));
  }

  /** A relation or index name at the end of a line. */
  lemma NameRead(word: string, name: string, k: string)
    requires word != [] && IsIdent(name)
    ensures Sym(word, word + (" " + (name + (";\n" + k)))) == Done((), name + (";\n" + k))
    ensures Ident(name + (";\n" + k)) == Done(name, ";\n" + k)
  {
    IdentHead(name, ";\n" + k);
    WordRead(word, name + (";\n" + k));
    IdentRead(name, ";\n" + k);
    LineEnd((), k);
  }

  lemma NotCommit(t: string)
    ensures CommitCmd("clear" + t) == Fail
  {
    TagDiffers("commit", "clear" + t, 1);
  }

  lemma ClearRead(rel: string, k: string)
    requires IsIdent(rel)
    ensures ParseCommand("clear" + (" " + (rel + (";\n" + k)))) == Done(Clear(rel), Spaces(k))
  {
    var x := "clear" + (" " + (rel + (";\n" + k)));
    NameRead("clear", rel, k);
    LineEnd(Clear(rel), k);
    NotCommit(" " + (rel + (";\n" + k)));
    assert ClearCmd(x) == Done(Clear(rel), Spaces(k));
    Picked(x);
  }

  lemma DumpRead(rel: string, k: string)
    requires IsIdent(rel)
    ensures ParseCommand("dump" + (" " + (rel + (";\n" + k)))) == Done(Dump(Some(rel)), Spaces(k))
  {
    var x := "dump" + (" " + (rel + (";\n" + k)));
    NameRead("dump", rel, k);
    LineEnd(Dump(Some(rel)), k);
    PickedDump(x);
  }

  /** `dump` is tried before `dump_index`; it takes `_index` for a relation and then fails. */
  lemma DumpIndexRead(idx: string, k: string)
    requires IsIdent(idx)
    ensures ParseCommand("dump_index" + (" " + (idx + (";\n" + k)))) == Done(DumpIndex(idx), Spaces(k))
  {
    var x := "dump_index" + (" " + (idx + (";\n" + k)));
    NameRead("dump_index", idx, k);
    LineEnd(DumpIndex(idx), k);
    IdentHead(idx, ";\n" + k);
    NotDump(idx + (";\n" + k));
    PickedDump(x);
  }

  lemma NotDump(arg: string)
    requires arg != [] && !IsSpace(arg[0]) && arg[0] != ';'
    ensures DumpCmd("dump_index" + (" " + arg)) == Fail
  {
    var y := "_index" + (" " + arg);
    LongDump(arg);
    SymRead("dump", y);
    Suffixes();
    IdentBlank("_index", arg);
    TagHead(";", arg);
  }

  lemma LongDump(arg: string)
    ensures "dump_index" + (" " + arg) == "dump" + ("_index" + (" " + arg))
  {
    assert "dump" + "_index" == "dump_index";
    Split("dump", "_index", " " + arg);
  }

  lemma IdentBlank(name: string, arg: string)
    requires IsIdent(name) && arg != [] && !IsSpace(arg[0])
    ensures Ident(name + (" " + arg)) == Done(name, arg)
    ensures Spaces(name + (" " + arg)) == name + (" " + arg)
  {
    IdentRead(name, " " + arg);
    assert (" " + arg)[1..] == arg && Spaces(arg) == arg;
  }

  lemma QueryRead(p: char -> bool, idx: string, key: Record, k: string)
    requires IsIdent(idx) && RecordOk(p, key)
    ensures ParseCommand("query_index" + (" " + (idx + ("(" + (Display(p, key) + (")" + (";\n" + k))))))) ==
            Done(QueryIndex(idx, Norm(key)), Spaces(k))
  {
    ClosedRead(p, key, ")" + (";\n" + k));
    QueryBy(idx, Display(p, key) + (")" + (";\n" + k)), Norm(key), k);
  }

  lemma QueryBy(idx: string, arg: string, key: Record, k: string)
    requires IsIdent(idx) && arg != [] && !IsSpace(arg[0])
    requires ParseRecord(arg) == Done(key, ")" + (";\n" + k))
    ensures ParseCommand("query_index" + (" " + (idx + ("(" + arg)))) == Done(QueryIndex(idx, key), Spaces(k))
  {
    QueryRule(idx, arg, key, k);
    PickedQuery("query_index" + (" " + (idx + ("(" + arg))));
  }

  lemma QueryArgs(arg: string, key: Record, k: string)
    requires arg != [] && !IsSpace(arg[0])
    requires ParseRecord(arg) == Done(key, ")" + (";\n" + k))
    ensures Sym("(", "(" + arg) == Done((), arg)
    ensures Items(arg) == Done([key], ")" + (";\n" + k))
    ensures Sym(")", ")" + (";\n" + k)) == Done((), ";\n" + k)
  {
    SymRead("(", arg);
    OneItem(arg, key, ")" + (";\n" + k));
    SymRead(")", ";\n" + k);
    LineEnd((), k);
  }

  lemma QueryRule(idx: string, arg: string, key: Record, k: string)
    requires IsIdent(idx) && arg != [] && !IsSpace(arg[0])
    requires ParseRecord(arg) == Done(key, ")" + (";\n" + k))
    ensures QueryIndexCmd("query_index" + (" " + (idx + ("(" + arg)))) == Done(QueryIndex(idx, key), Spaces(k))
  {
    QueryName(idx, arg);
    QueryArgs(arg, key, k);
    LineEnd(QueryIndex(idx, key), k);
  }

  lemma QueryName(idx: string, arg: string)
    requires IsIdent(idx)
    ensures Sym("query_index", "query_index" + (" " + (idx + ("(" + arg)))) == Done((), idx + ("(" + arg))
    ensures Ident(idx + ("(" + arg)) == Done(idx, "(" + arg)
  {
    IdentHead(idx, "(" + arg);
    WordRead("query_index", idx + ("(" + arg));
    IdentRead(idx, "(" + arg);
  }

  lemma OneItem(x: string, v: Record, rest: string)
    requires ParseRecord(x) == Done(v, rest) && rest != [] && rest[0] == ')'
    ensures Items(x) == Done([v], rest)
  {
    TagHead(",", rest);
    assert MoreItems(rest) == Done([], rest) && [v] + [] == [v];
  }

  /** `on` or `off` at the end of a line. */
  lemma SwitchRead(word: string, on: bool, k: string)
    requires word != []
    ensures var x := word + (" " + ((if on then "on" else "off") + (";\n" + k)));
      Switch(word, x) == Done(on, ";\n" + k)
  {
    var line := ";\n" + k;
    var value := if on then "on" else "off";
    WordRead(word, value + line);
    SymRead(value, line);
    LineEnd((), k);
    if !on {
      TagDiffers("on", value + line, 1);
    }
  }

  lemma ProfileArgRead(word: string, on: bool, k: string)
    requires word != [] && !IsSpace(word[0])
    ensures var arg := word + (" " + ((if on then "on" else "off") + (";\n" + k)));
      && ProfileCommand(word, "profile" + (" " + arg)) == Done(Profile(Some(ProfileSwitch(word, on))), Spaces(k))
      && Sym("profile", "profile" + (" " + arg)) == Done((), arg)
  {
    var arg := word + (" " + ((if on then "on" else "off") + (";\n" + k)));
    WordRead("profile", arg);
    SwitchRead(word, on, k);
    LineEnd(Profile(Some(ProfileSwitch(word, on))), k);
  }

  /** Each profile rule passes over the others' arguments. */
  lemma OtherProfile(word: string, x: string)
    requires word != [] && Sym("profile", x).Done?
    requires Sym("profile", x).rest != [] && Sym("profile", x).rest[0] != ';'
    requires Sym(word, Sym("profile", x).rest) == Fail
    ensures ProfileCommand(word, x) == Fail
  {
    TagHead(";", Sym("profile", x).rest);
  }

  lemma ProfileRead(c: ProfileCmd, k: string)
    ensures var value := if c.on then "on" else "off";
      ParseCommand("profile" + (" " + (ProfileWord(c) + (" " + (value + (";\n" + k)))))) ==
      Done(Profile(Some(c)), Spaces(k))
  {
    var value := " " + ((if c.on then "on" else "off") + (";\n" + k));
    var x := "profile" + (" " + (ProfileWord(c) + value));
    SwitchOf(c);
    ProfileArgRead(ProfileWord(c), c.on, k);
    EarlierProfiles(c, value);
    ProfileChoice(c, x, Spaces(k));
  }

  lemma SwitchOf(c: ProfileCmd)
    ensures ProfileSwitch(ProfileWord(c), c.on) == c
    ensures ProfileWord(c) != [] && !IsSpace(ProfileWord(c)[0])
  {
  }

  lemma ProfileChoice(c: ProfileCmd, x: string, rest: string)
    requires x != [] && x[0] == 'p'
    requires !c.Cpu? ==> ProfileCommand("cpu", x) == Fail
    requires c.Timely? ==> ProfileCommand("change", x) == Fail
    requires ProfileCommand(ProfileWord(c), x) == Done(Profile(Some(c)), rest)
    ensures ParseCommand(x) == Done(Profile(Some(c)), rest)
  {
    PickedProfile(x);
  }

  lemma EarlierProfiles(c: ProfileCmd, value: string)
    ensures var x := "profile" + (" " + (ProfileWord(c) + value));
      && (!c.Cpu? ==> ProfileCommand("cpu", x) == Fail)
      && (c.Timely? ==> ProfileCommand("change", x) == Fail)
  {
    var arg := ProfileWord(c) + value;
    WordRead("profile", arg);
    if c.Change? {
      TagDiffers("cpu", arg, 1);
      OtherProfile("cpu", "profile" + (" " + arg));
    } else if c.Timely? {
      TagHead("cpu", arg);
      TagHead("change", arg);
      OtherProfile("cpu", "profile" + (" " + arg));
      OtherProfile("change", "profile" + (" " + arg));
    }
  }

  /** `profile`, nothing but white space, and the end of the line. */
  lemma DumpProfileRead(blanks: string, k: string)
    requires Blank(blanks)
    ensures ParseCommand("profile" + (blanks + (";\n" + k))) == Done(Profile(None), Spaces(k))
  {
    BlankSkipped(blanks, ";\n" + k);
    LineEnd(Profile(None), k);
    NoSwitch(blanks + (";\n" + k), ";\n" + k);
    PickedProfile("profile" + (blanks + (";\n" + k)));
  }

  lemma NoSwitch(t: string, line: string)
    requires Spaces(t) == line && line != [] && line[0] == ';'
    ensures ProfileCommand("cpu", "profile" + t) == Keyword(";", line, Profile(None))
  {
    SymRead("profile", t);
    TagHead("cpu", line);
  }

  // ---- comments --------------------------------------------------------------------------

  predicate Blank(t: string) {
    forall i :: 0 <= i < |t| ==> IsSpace(t[i])
  }

  predicate OneLine(t: string) {
    forall i :: 0 <= i < |t| ==> t[i] != '\n'
  }

  lemma {:induction false} BlankSkipped(t: string, k: string)
    requires Blank(t)
    ensures Spaces(t + k) == Spaces(k)
  {
    if t == [] {
      assert t + k == k;
    } else {
      assert (t + k)[1..] == t[1..] + k;
      BlankSkipped(t[1..], k);
    }
  }

  /** Something of a line that is not blank is left after its leading white space. */
  lemma {:induction false} NonBlankKept(t: string, k: string) returns (u: string)
    requires !Blank(t)
    ensures u != [] && (OneLine(t) ==> OneLine(u)) && Spaces(t + k) == u + k
  {
    if IsSpace(t[0]) {
      assert (t + k)[1..] == t[1..] + k;
      assert forall i :: 0 <= i < |t[1..]| ==> t[1..][i] == t[i + 1];
      u := NonBlankKept(t[1..], k);
    } else {
      u := t;
    }
  }

  lemma {:induction false} RunStops(p: char -> bool, x: string)
    ensures Run(p, x).Done? ==> !p(Run(p, x).rest[0])
  {
    if x != [] && p(x[0]) {
      RunStops(p, x[1..]);
    }
  }

  /** What follows the mark: the rest of a line, up to its end. */
  lemma CommentRest(x: string, u: string, k: string)
    requires x != [] && x[0] == '#' && OneLine(u) && Spaces(x[1..]) == u + ("\n" + k)
    ensures CommentCmd(x) == Done(Comment, Spaces(k))
  {
    TagHead("#", x);
    RunRead(d => d != '\n', u, "\n" + k);
    assert TakeUntil('\n', u + ("\n" + k)) == Done(u, "\n" + k);
    SymRead("\n", k);
  }

  /** A comment never fails, and when only white space follows its mark on its line, it goes on
      into what comes after. */
  lemma CommentGoesOn(x: string)
    requires x != [] && x[0] == '#'
    ensures CommentCmd(x) != Fail
    ensures CommentCmd(x).Done? ==> |CommentCmd(x).rest| < |Spaces(x[1..])|
  {
    TagHead("#", x);
    var r1 := Spaces(x[1..]);
    RunStops(d => d != '\n', r1);
    if TakeUntil('\n', r1).Done? {
      var r2 := TakeUntil('\n', r1).rest;
      assert r2[0] == '\n';
      TagHead("\n", r2);
    }
  }

  /** A comment ends at the end of its line if and only if something other than white space
      follows its mark on that line. */
  lemma CommentEndsItsLine(t: string, k: string)
    requires OneLine(t)
    ensures ParseCommand("#" + (t + ("\n" + k))) == Done(Comment, Spaces(k)) <==> !Blank(t)
  {
    var x := "#" + (t + ("\n" + k));
    assert x[1..] == t + ("\n" + k);
    CommentGoesOn(x);
    PickedComment(x);
    if Blank(t) {
      BlankSkipped(t, "\n" + k);
      assert ("\n" + k)[1..] == k;
    } else {
      var u := NonBlankKept(t, "\n" + k);
      CommentRest(x, u, k);
    }
  }

  /** Otherwise it takes the next line with it: the white space after the mark, line break
      included, is skipped before the end of the comment is looked for. */
  lemma BlankCommentTakesNextLine(t: string, line: string, k: string)
    requires Blank(t) && OneLine(line) && !Blank(line)
    ensures ParseCommand("#" + (t + ("\n" + (line + ("\n" + k))))) == Done(Comment, Spaces(k))
  {
    var next := line + ("\n" + k);
    var x := "#" + (t + ("\n" + next));
    assert x[1..] == t + ("\n" + next);
    BlankSkipped(t, "\n" + next);
    assert ("\n" + next)[1..] == next;
    var u := NonBlankKept(line, "\n" + k);
    CommentRest(x, u, k);
    PickedComment(x);
  }

  lemma PickedComment(x: string)
    requires x != [] && x[0] == '#' && CommentCmd(x) != Fail
    ensures ParseCommand(x) == CommentCmd(x)
  {
    Heads1(x);
    assert Spaces(x) == x;
  }
}
