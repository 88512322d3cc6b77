/**
  The round trip of commands: which recorded updates and calls are read back, exactly
  (rust/template/differential_datalog/src/replay.rs, rust/template/cmd_parser/parse.rs).
 */
module CommandRoundTrip {
  import opened Stream
  import opened Wrappers
  import opened Records
  import opened Parser
  import opened RoundTrip
  import opened Unreadables
  import opened Recorder
  import Replay
  import Interact

  /** No double in any of the records. */
  predicate UpdFloatless(u: UpdCmd) {
    match u
    case Insert(_, rec) => Floatless(rec)
    case InsertOrUpdate(_, rec) => Floatless(rec)
    case Delete(_, rec) => Floatless(rec)
    case DeleteKey(_, key) => Floatless(key)
    case Modify(_, key, mutator) => Floatless(key) && Floatless(mutator)
  }

  /** Every update that the grammar returns names a relation by an identifier. */
  lemma UpdateSound(x: string)
    ensures ParseUpdate(x).Done? ==> IsIdent(ParseUpdate(x).value.rel)
  {
    if InsertUpd(x) != Fail {
      InsertSound(x);
    } else if InsertOrUpdateUpd(x) != Fail {
      InsertOrUpdateSound(x);
    } else if DeleteUpd(x) != Fail {
      DeleteSound(x);
    } else if DeleteKeyUpd(x) != Fail {
      DeleteKeySound(x);
    } else {
      ModifySound(x);
    }
  }

  lemma RelRecordSound(x: string)
    ensures RelRecord(x).Done? ==> IsIdent(RelRecord(x).value.0)
  {
    IdentSound(x);
  }

  lemma RelKeySound(x: string)
    ensures RelKey(x).Done? ==> IsIdent(RelKey(x).value.0) && NamesOk(RelKey(x).value.1)
  {
    IdentSound(x);
    if Ident(x).Done? {
      RecordSound(Ident(x).rest);
    }
  }

  lemma InsertSound(x: string)
    ensures InsertUpd(x).Done? ==> InsertUpd(x).value.Insert? && IsIdent(InsertUpd(x).value.rel)
  {
    if Sym("insert", x).Done? {
      RelRecordSound(Sym("insert", x).rest);
    }
  }

  lemma InsertOrUpdateSound(x: string)
    ensures InsertOrUpdateUpd(x).Done? ==>
      InsertOrUpdateUpd(x).value.InsertOrUpdate? && IsIdent(InsertOrUpdateUpd(x).value.rel)
  {
    if Sym("insert_or_update", x).Done? {
      RelRecordSound(Sym("insert_or_update", x).rest);
    }
  }

  lemma DeleteSound(x: string)
    ensures DeleteUpd(x).Done? ==> DeleteUpd(x).value.Delete? && IsIdent(DeleteUpd(x).value.rel)
  {
    if Sym("delete", x).Done? {
      RelRecordSound(Sym("delete", x).rest);
    }
  }

  lemma DeleteKeySound(x: string)
    ensures DeleteKeyUpd(x).Done? ==> DeleteKeyUpd(x).value.DeleteKey? && IsIdent(DeleteKeyUpd(x).value.rel)
  {
    if Sym("delete_key", x).Done? {
      RelKeySound(Sym("delete_key", x).rest);
    }
  }

  lemma ModifySound(x: string)
    ensures ModifyUpd(x).Done? ==> ModifyUpd(x).value.Modify? && IsIdent(ModifyUpd(x).value.rel)
  {
    if Sym("modify", x).Done? {
      RelKeySound(Sym("modify", x).rest);
    }
  }

  /** A result of the update grammar comes from the rule for its kind. */
  lemma RuleOf(x: string)
    ensures var r := ParseUpdate(x);
      r.Done? ==>
        match r.value
        case Insert(_, _) => r == InsertUpd(x)
        case InsertOrUpdate(_, _) => r == InsertOrUpdateUpd(x)
        case Delete(_, _) => r == DeleteUpd(x)
        case DeleteKey(_, _) => r == DeleteKeyUpd(x)
        case Modify(_, _, _) => r == ModifyUpd(x)
  {
    InsertSound(x);
    InsertOrUpdateSound(x);
    DeleteSound(x);
    DeleteKeySound(x);
    ModifySound(x);
  }

  lemma BracketedSound(x: string)
    ensures Bracketed(x).Done? ==> NamesOk(Bracketed(x).value)
  {
    if Sym("[", x).Done? {
      RecordSound(Sym("[", x).rest);
    }
  }

  /** A record that is not readable is not read between brackets. */
  lemma BracketedBroken(p: char -> bool, rec: Record, t: string)
    requires Floatless(rec) && !RecordOk(p, rec)
    ensures var b := Bracketed("[" + (Display(p, rec) + ("]" + t))); b.Done? ==> b.value != Norm(rec)
  {
    if NamesOk(rec) {
      ClosedBroken(p, rec, t);
    } else {
      BracketedSound("[" + (Display(p, rec) + ("]" + t)));
      NormNames(rec);
    }
  }

  lemma ClosedBroken(p: char -> bool, rec: Record, t: string)
    requires Floatless(rec) && NamesOk(rec) && !TextsOk(p, rec)
    ensures Bracketed("[" + (Display(p, rec) + ("]" + t))) == Fail
  {
    DisplayHead(p, rec);
    HeadStays(Display(p, rec), "]" + t);
    CloserFirst("]" + t);
    RecordBroken(p, rec, "]" + t);
    NotClosed(Display(p, rec) + ("]" + t), "]" + t);
  }

  lemma NotClosed(inner: string, k: string)
    requires inner != [] && !IsSpace(inner[0]) && Broken(ParseRecord(inner), k)
    ensures Bracketed("[" + inner) == Fail
  {
    SymRead("[", inner);
    if ParseRecord(inner).Done? {
      TagHead("]", ParseRecord(inner).rest);
    }
  }

  lemma RelRecordBroken(p: char -> bool, rel: string, rec: Record, t: string)
    requires IsIdent(rel) && Floatless(rec) && !RecordOk(p, rec)
    ensures var r := RelRecord(rel + ("[" + (Display(p, rec) + ("]" + t)))); r.Done? ==> r.value.1 != Norm(rec)
  {
    var y := "[" + (Display(p, rec) + ("]" + t));
    IdentBracket(rel, y);
    BracketedBroken(p, rec, t);
    OnlyBracketed(rel + y, rel, y);
  }

  lemma OnlyBracketed(x: string, rel: string, y: string)
    requires Ident(x) == Done(rel, y) && y != [] && y[0] == '['
    ensures RelRecord(x).Done? ==> Bracketed(y).Done? && RelRecord(x).value.1 == Bracketed(y).value
  {
    TagHead("(", y);
  }

  /** A key that is not readable is not read up to what follows it. */
  lemma RelKeyBroken(p: char -> bool, rel: string, key: Record, t: string)
    requires IsIdent(rel) && Floatless(key) && !RecordOk(p, key) && Delimited(t)
    ensures var r := RelKey(rel + (" " + (Display(p, key) + t)));
      r.Done? ==> r.value.1 != Norm(key) || (r.rest != [] && r.rest[0] == '{' && |r.rest| > |t|)
  {
    if NamesOk(key) {
      DisplayHead(p, key);
      HeadStays(Display(p, key), t);
      RecordBroken(p, key, t);
      KeyRest(rel, Display(p, key) + t);
    } else {
      NormNames(key);
      RelKeySound(rel + (" " + (Display(p, key) + t)));
    }
  }

  lemma KeyRest(rel: string, d: string)
    requires IsIdent(rel) && d != [] && !IsSpace(d[0])
    ensures var r, k := RelKey(rel + (" " + d)), ParseRecord(d);
      r.Done? ==> k == Done(r.value.1, r.rest)
  {
    IdentRead(rel, " " + d);
    assert (" " + d)[1..] == d;
  }

  /** The word of an update, a blank and its arguments. */
  lemma KeywordRest(word: string, rel: string, t: string)
    requires word != [] && IsIdent(rel)
    ensures Sym(word, word + (" " + (rel + t))) == Done((), rel + t)
  {
    IdentHead(rel, t);
    WordRead(word, rel + t);
  }

  lemma RecordUpdBroken(p: char -> bool, word: string, rel: string, rec: Record, t: string)
    requires word != [] && IsIdent(rel) && Floatless(rec) && !RecordOk(p, rec)
    ensures var s := Sym(word, RelText(word, rel, Display(p, rec)) + t);
      s.Done? && (RelRecord(s.rest).Done? ==> RelRecord(s.rest).value.1 != Norm(rec))
  {
    RelTextSplit(word, rel, Display(p, rec), t);
    KeywordRest(word, rel, "[" + (Display(p, rec) + ("]" + t)));
    RelRecordBroken(p, rel, rec, t);
  }

  lemma KeyUpdBroken(p: char -> bool, word: string, rel: string, key: Record, t: string)
    requires word != [] && IsIdent(rel) && Floatless(key) && !RecordOk(p, key) && Delimited(t)
    ensures var s := Sym(word, KeyText(word, rel, Display(p, key)) + t);
      s.Done? &&
      var r := RelKey(s.rest);
      r.Done? ==> r.value.1 != Norm(key) || (r.rest != [] && r.rest[0] == '{' && |r.rest| > |t|)
  {
    KeyTextSplit(word, rel, Display(p, key), t);
    KeywordRest(word, rel, " " + (Display(p, key) + t));
    RelKeyBroken(p, rel, key, t);
  }

  lemma DeleteKeyBroken(p: char -> bool, rel: string, key: Record, t: string)
    requires IsIdent(rel) && Floatless(key) && !RecordOk(p, key) && Delimited(t)
    ensures DeleteKeyUpd(KeyText("delete_key", rel, Display(p, key)) + t) != Done(DeleteKey(rel, Norm(key)), Spaces(t))
  {
    KeyUpdBroken(p, "delete_key", rel, key, t);
  }

  lemma ModifyKeyBroken(p: char -> bool, rel: string, key: Record, rest: string)
    requires IsIdent(rel) && Floatless(key) && !RecordOk(p, key)
    ensures var m := ModifyUpd(KeyText("modify", rel, Display(p, key)) + (" <- " + rest));
      m.Done? && m.value.Modify? ==> m.value.key != Norm(key)
  {
    var x := KeyText("modify", rel, Display(p, key)) + (" <- " + rest);
    assert Delimited(" <- " + rest);
    KeyUpdBroken(p, "modify", rel, key, " <- " + rest);
    NoArrow(x, Sym("modify", x).rest, Norm(key));
  }

  /** No mutator comes where the key is not read to its end. */
  lemma NoArrow(x: string, arg: string, key: Record)
    requires Sym("modify", x) == Done((), arg)
    requires RelKey(arg).Done? ==> RelKey(arg).value.1 != key || (RelKey(arg).rest != [] && RelKey(arg).rest[0] == '{')
    ensures ModifyUpd(x).Done? && ModifyUpd(x).value.Modify? ==> ModifyUpd(x).value.key != key
  {
    if RelKey(arg).Done? && RelKey(arg).value.1 == key {
      TagHead("<-", RelKey(arg).rest);
    }
  }

  lemma ModifyMutatorBroken(p: char -> bool, rel: string, key: Record, mutator: Record, t: string)
    requires IsIdent(rel) && RecordOk(p, key) && Floatless(mutator) && !RecordOk(p, mutator) && Delimited(t)
    ensures ModifyUpd(KeyText("modify", rel, Display(p, key)) + (" <- " + (Display(p, mutator) + t))) !=
            Done(Modify(rel, Norm(key), Norm(mutator)), Spaces(t))
  {
    var m := Display(p, mutator) + t;
    var arg := rel + (" " + (Display(p, key) + (" <- " + m)));
    KeyTextSplit("modify", rel, Display(p, key), " <- " + m);
    KeywordRest("modify", rel, " " + (Display(p, key) + (" <- " + m)));
    assert Delimited(" <- " + m);
    RelKeyRead(p, rel, key, " <- " + m);
    MutatorBroken(p, mutator, t);
    NoMutator("modify" + (" " + arg), arg, (rel, Norm(key)), Spaces(" <- " + m), Norm(mutator), Spaces(t));
  }

  lemma NoMutator(x: string, arg: string, rr: (string, Record), y: string, mutator: Record, rest: string)
    requires Sym("modify", x) == Done((), arg) && RelKey(arg) == Done(rr, y) && Mutator(y) != Done(mutator, rest)
    ensures ModifyUpd(x) != Done(Modify(rr.0, rr.1, mutator), rest)
  {
  }

  lemma MutatorBroken(p: char -> bool, mutator: Record, t: string)
    requires Floatless(mutator) && !RecordOk(p, mutator) && Delimited(t)
    ensures Mutator(Spaces(" <- " + (Display(p, mutator) + t))) != Done(Norm(mutator), Spaces(t))
  {
    var m := Display(p, mutator) + t;
    ArrowSkipped(m);
    if NamesOk(mutator) {
      DisplayHead(p, mutator);
      HeadStays(Display(p, mutator), t);
      RecordRoundTrip(p, mutator, t);
    } else {
      NormNames(mutator);
      RecordSound(Spaces(m));
    }
  }

  lemma ArrowSkipped(m: string)
    ensures Sym("<-", Spaces(" <- " + m)) == Done((), Spaces(m))
  {
    var y := "<-" + (" " + m);
    assert (" <- " + m)[1..] == y;
    SymRead("<-", " " + m);
    assert (" " + m)[1..] == m;
  }

  lemma ModifyBroken(p: char -> bool, rel: string, key: Record, mutator: Record, t: string)
    requires IsIdent(rel) && Floatless(key) && Floatless(mutator) && Delimited(t)
    requires !RecordOk(p, key) || !RecordOk(p, mutator)
    ensures ModifyUpd((KeyText("modify", rel, Display(p, key)) + " <- " + Display(p, mutator)) + t) !=
            Done(Modify(rel, Norm(key), Norm(mutator)), Spaces(t))
  {
    ModifySplit(KeyText("modify", rel, Display(p, key)), Display(p, mutator), t);
    if RecordOk(p, key) {
      ModifyMutatorBroken(p, rel, key, mutator, t);
    } else {
      ModifyKeyBroken(p, rel, key, Display(p, mutator) + t);
    }
  }

  lemma ModifySplit(a: string, m: string, t: string)
    ensures (a + " <- " + m) + t == a + (" <- " + (m + t))
  {
  }

  lemma InsertBroken(p: char -> bool, rel: string, rec: Record, t: string)
    requires IsIdent(rel) && Floatless(rec) && !RecordOk(p, rec)
    ensures InsertUpd(RelText("insert", rel, Display(p, rec)) + t) != Done(Insert(rel, Norm(rec)), Spaces(t))
  {
    RecordUpdBroken(p, "insert", rel, rec, t);
  }

  lemma InsertOrUpdateBroken(p: char -> bool, rel: string, rec: Record, t: string)
    requires IsIdent(rel) && Floatless(rec) && !RecordOk(p, rec)
    ensures InsertOrUpdateUpd(RelText("insert_or_update", rel, Display(p, rec)) + t) !=
            Done(InsertOrUpdate(rel, Norm(rec)), Spaces(t))
  {
    RecordUpdBroken(p, "insert_or_update", rel, rec, t);
  }

  lemma DeleteBroken(p: char -> bool, rel: string, rec: Record, t: string)
    requires IsIdent(rel) && Floatless(rec) && !RecordOk(p, rec)
    ensures DeleteUpd(RelText("delete", rel, Display(p, rec)) + t) != Done(Delete(rel, Norm(rec)), Spaces(t))
  {
    RecordUpdBroken(p, "delete", rel, rec, t);
  }

  lemma UpdateBroken(p: char -> bool, u: UpdCmd, t: string)
    requires UpdFloatless(u) && IsIdent(u.rel) && !UpdOk(p, u) && Delimited(t)
    ensures ParseUpdate(UpdText(p, u) + t) != Done(NormUpd(u), Spaces(t))
  {
    RuleOf(UpdText(p, u) + t);
    match u
    case Insert(rel, rec) => InsertBroken(p, rel, rec, t);
    case InsertOrUpdate(rel, rec) => InsertOrUpdateBroken(p, rel, rec, t);
    case Delete(rel, rec) => DeleteBroken(p, rel, rec, t);
    case DeleteKey(rel, key) => DeleteKeyBroken(p, rel, key, t);
    case Modify(rel, key, mutator) => ModifyBroken(p, rel, key, mutator, t);
  }

  /** A recorded update without doubles, followed by a delimiter, is read back in normal form and
      with nothing else consumed if and only if its relation is named by an identifier and its
      records are readable. */
  lemma UpdateRoundTrip(p: char -> bool, u: UpdCmd, t: string)
    requires UpdFloatless(u) && Delimited(t)
    ensures ParseUpdate(UpdText(p, u) + t) == Done(NormUpd(u), Spaces(t)) <==> UpdOk(p, u)
  {
    if UpdOk(p, u) {
      UpdateRead(p, u, t);
    } else if IsIdent(u.rel) {
      UpdateBroken(p, u, t);
    } else {
      UpdateSound(UpdText(p, u) + t);
    }
  }

  // ---- single calls ----------------------------------------------------------------------

  predicate CallFloatless(c: Call) {
    c.QueryByIndex? ==> Floatless(c.key)
  }

  /** No update begins with another letter. */
  lemma NoUpdate(x: string)
    requires x != [] && x[0] != 'i' && x[0] != 'd' && x[0] != 'm'
    ensures UpdateCmd(x) == Fail
  {
    NotInsert(x);
    NotDelete(x);
    TagHead("modify", x);
  }

  lemma OnlyClear(x: string)
    requires x != [] && x[0] == 'c'
    ensures ParseCommand(x) == Alt(CommitCmd(x), ClearCmd(x))
  {
    assert Spaces(x) == x;
    Heads1(x);
    Heads2(x);
    NoUpdate(x);
    assert Commands1(x) == CommitCmd(x) && Commands2(x) == ClearCmd(x);
  }

  lemma OnlyQuery(x: string)
    requires x != [] && x[0] == 'q'
    ensures ParseCommand(x) == QueryIndexCmd(x)
  {
    assert Spaces(x) == x;
    Heads1(x);
    Heads2(x);
    NoUpdate(x);
    assert Commands1(x) == Fail && Commands2(x) == QueryIndexCmd(x);
  }

  lemma OnlyProfile(x: string)
    requires x != [] && x[0] == 'p'
    ensures ParseCommand(x) ==
            Alt(ProfileCommand("cpu", x), Alt(ProfileCommand("change", x), ProfileCommand("timely", x)))
  {
    assert Spaces(x) == x;
    Heads1(x);
    Heads2(x);
    NoUpdate(x);
    assert Commands2(x) == Fail;
    ProfileGroup(x);
  }

  lemma ProfileGroup(x: string)
    requires Plain("start", Start, x) == Fail && CommitCmd(x) == Fail && Plain("timestamp", Timestamp, x) == Fail
    requires CommentCmd(x) == Fail && DumpCmd(x) == Fail
    ensures Commands1(x) ==
            Alt(ProfileCommand("cpu", x), Alt(ProfileCommand("change", x), ProfileCommand("timely", x)))
  {
  }

  /** Names are identifiers, and keys are well named. */
  predicate NamesKnown(c: Command) {
    match c
    case Clear(rel) => IsIdent(rel)
    case Dump(Some(rel)) => IsIdent(rel)
    case DumpIndex(idx) => IsIdent(idx)
    case QueryIndex(idx, key) => IsIdent(idx) && NamesOk(key)
    case _ => true
  }

  lemma ClearSound(x: string)
    ensures CommitCmd(x).Done? ==> CommitCmd(x).value.Commit?
    ensures ClearCmd(x).Done? ==> ClearCmd(x).value.Clear? && NamesKnown(ClearCmd(x).value)
  {
    if Sym("clear", x).Done? {
      IdentSound(Sym("clear", x).rest);
    }
  }

  lemma DumpSound(x: string)
    ensures DumpCmd(x).Done? ==> DumpCmd(x).value.Dump? && NamesKnown(DumpCmd(x).value)
  {
    if Sym("dump", x).Done? {
      IdentSound(Sym("dump", x).rest);
    }
  }

  lemma DumpIndexSound(x: string)
    ensures DumpIndexCmd(x).Done? ==> DumpIndexCmd(x).value.DumpIndex? && NamesKnown(DumpIndexCmd(x).value)
  {
    if Sym("dump_index", x).Done? {
      IdentSound(Sym("dump_index", x).rest);
    }
  }

  lemma UpdateKind(x: string)
    ensures UpdateCmd(x).Done? ==> UpdateCmd(x).value.Update?
  {
  }

  lemma QuerySound(x: string)
    ensures QueryIndexCmd(x).Done? ==> QueryIndexCmd(x).value.QueryIndex? && NamesKnown(QueryIndexCmd(x).value)
  {
    if Sym("query_index", x).Done? {
      var r := Sym("query_index", x).rest;
      IdentSound(r);
      if Ident(r).Done? && Sym("(", Ident(r).rest).Done? {
        ItemsSound(Sym("(", Ident(r).rest).rest);
      }
    }
  }

  lemma ClearRoundTrip(rel: string, k: string)
    ensures ParseCommand("clear" + (" " + (rel + (";\n" + k)))) == Done(Clear(rel), Spaces(k)) <==> IsIdent(rel)
  {
    var x := "clear" + (" " + (rel + (";\n" + k)));
    if IsIdent(rel) {
      ClearRead(rel, k);
    } else {
      OnlyClear(x);
      ClearSound(x);
    }
  }

  lemma DumpRoundTrip(rel: string, k: string)
    ensures ParseCommand("dump" + (" " + (rel + (";\n" + k)))) == Done(Dump(Some(rel)), Spaces(k)) <==> IsIdent(rel)
  {
    var x := "dump" + (" " + (rel + (";\n" + k)));
    if IsIdent(rel) {
      DumpRead(rel, k);
    } else {
      DumpNames(x);
    }
  }

  lemma DumpIndexRoundTrip(idx: string, k: string)
    ensures ParseCommand("dump_index" + (" " + (idx + (";\n" + k)))) == Done(DumpIndex(idx), Spaces(k)) <==>
            IsIdent(idx)
  {
    var x := "dump_index" + (" " + (idx + (";\n" + k)));
    if IsIdent(idx) {
      DumpIndexRead(idx, k);
    } else {
      DumpNames(x);
    }
  }

  /** Commands that begin with `d` and name something name it by an identifier. */
  lemma DumpNames(x: string)
    requires x != [] && x[0] == 'd'
    ensures ParseCommand(x).Done? ==> NamesKnown(ParseCommand(x).value)
  {
    PickedDump(x);
    DumpSound(x);
    DumpIndexSound(x);
    UpdateKind(x);
  }

  /** A key whose strings are not readable is not read between the parentheses of a query. */
  lemma QueryBroken(p: char -> bool, idx: string, key: Record, t: string)
    requires IsIdent(idx) && Floatless(key) && NamesOk(key) && !TextsOk(p, key)
    ensures QueryIndexCmd("query_index" + (" " + (idx + ("(" + (Display(p, key) + (")" + t)))))) == Fail
  {
    var arg := Display(p, key) + (")" + t);
    DisplayHead(p, key);
    HeadStays(Display(p, key), ")" + t);
    assert arg[0] == Display(p, key)[0];
    CloserFirst(")" + t);
    RecordBroken(p, key, ")" + t);
    BrokenItems(arg, ")" + t);
    QueryStuck(idx, arg);
  }

  lemma QueryStuck(idx: string, arg: string)
    requires IsIdent(idx) && arg != [] && !IsSpace(arg[0]) && Stuck(Items(arg))
    ensures QueryIndexCmd("query_index" + (" " + (idx + ("(" + arg)))) == Fail
  {
    QueryName(idx, arg);
    SymRead("(", arg);
    TagHead(")", Items(arg).rest);
  }

  lemma QueryRoundTrip(p: char -> bool, idx: string, key: Record, k: string)
    requires Floatless(key)
    ensures var x := "query_index" + (" " + (idx + ("(" + (Display(p, key) + (")" + (";\n" + k))))));
      ParseCommand(x) == Done(QueryIndex(idx, Norm(key)), Spaces(k)) <==> IsIdent(idx) && RecordOk(p, key)
  {
    var x := "query_index" + (" " + (idx + ("(" + (Display(p, key) + (")" + (";\n" + k))))));
    if IsIdent(idx) && RecordOk(p, key) {
      QueryRead(p, idx, key, k);
    } else {
      OnlyQuery(x);
      if IsIdent(idx) && NamesOk(key) {
        QueryBroken(p, idx, key, ";\n" + k);
      } else {
        NormNames(key);
        QuerySound(x);
      }
    }
  }

  /** A profile command without a switch ends right after its keyword. */
  lemma NoneEnds(word: string, x: string)
    requires word != []
    ensures var r := ProfileCommand(word, x);
      r.Done? && r.value == Profile(None) ==>
        Sym("profile", x).Done? &&
        var y := Sym("profile", x).rest;
        y != [] && y[0] == ';' && r.rest == Spaces(y[1..])
  {
    if Sym("profile", x).Done? {
      var y := Sym("profile", x).rest;
      if y != [] {
        TagHead(";", y);
      }
    }
  }

  lemma {:induction false} StillThere(t: string, z: string)
    requires z != [] && !IsSpace(z[0])
    ensures |Spaces(t + z)| >= |z|
  {
    if t == [] {
      assert t + z == z;
    } else {
      assert (t + z)[1..] == t[1..] + z;
      StillThere(t[1..], z);
    }
  }

  /** What is left of a label that is not blank stands before the end of the line. */
  lemma LabelRest(t: string, k: string) returns (y: string)
    requires !Blank(t)
    ensures Sym("profile", "profile" + (t + (";\n" + k))) == Done((), y) && y != [] && |Spaces(y[1..])| > |k|
  {
    var line := ";\n" + k;
    SymRead("profile", t + line);
    var u := NonBlankKept(t, line);
    y := u + line;
    assert y[1..] == u[1..] + line;
    StillThere(u[1..], line);
  }

  /** A label that is not blank is not passed over. */
  lemma LabelStays(t: string, k: string)
    requires !Blank(t)
    ensures ParseCommand("profile" + (t + (";\n" + k))) != Done(Profile(None), Spaces(k))
  {
    var x := "profile" + (t + (";\n" + k));
    var y := LabelRest(t, k);
    OnlyProfile(x);
    LabelEnds(ParseCommand, x, y, k);
  }

  lemma LabelEnds(parse: Interact.CommandParser, x: string, y: string, k: string)
    requires parse(x) == Alt(ProfileCommand("cpu", x), Alt(ProfileCommand("change", x), ProfileCommand("timely", x)))
    requires Sym("profile", x) == Done((), y) && y != [] && |Spaces(y[1..])| > |k|
    ensures parse(x) != Done(Profile(None), Spaces(k))
  {
    NoneEnds("cpu", x);
    NoneEnds("change", x);
    NoneEnds("timely", x);
  }

  /** The label of a profile dump is passed over if and only if it is blank. */
  lemma LabelRoundTrip(t: string, k: string)
    ensures ParseCommand("profile" + (t + (";\n" + k))) == Done(Profile(None), Spaces(k)) <==> Blank(t)
  {
    if Blank(t) {
      DumpProfileRead(t, k);
    } else {
      LabelStays(t, k);
    }
  }

  /** One label that is read as something else: it makes a dump a switch. */
  lemma LabelReadAsSwitch(p: char -> bool, k: string)
    ensures ParseCommand(CallText(p, DumpProfile(Some("cpu on"))) + k) == Done(Profile(Some(Cpu(true))), Spaces(k))
  {
    assert CallText(p, DumpProfile(Some("cpu on"))) == CallText(p, EnableProfiling(Cpu(true)));
    Replay.CallRead(p, EnableProfiling(Cpu(true)), k);
  }

  /** A call is read back as its command. */
  ghost predicate ComesBack(parse: Interact.CommandParser, p: char -> bool, c: Call, k: string)
    requires !c.ApplyUpdates?
  {
    parse(CallText(p, c) + k) == Done(CallCommand(c), Spaces(k))
  }

  lemma ClearBack(parse: Interact.CommandParser, p: char -> bool, rel: string, k: string)
    ensures ComesBack(parse, p, ClearRelation(rel), k) <==>
            parse("clear" + (" " + (rel + (";\n" + k)))) == Done(Clear(rel), Spaces(k))
  {
    Replay.WordLines();
    Replay.LineText("clear", rel, k);
  }

  lemma QueryBack(parse: Interact.CommandParser, p: char -> bool, idx: string, key: Record, k: string)
    ensures var x := "query_index" + (" " + (idx + ("(" + (Display(p, key) + (")" + (";\n" + k))))));
      ComesBack(parse, p, QueryByIndex(idx, key), k) <==> parse(x) == Done(QueryIndex(idx, Norm(key)), Spaces(k))
  {
    Replay.QueryText(idx, Display(p, key), k);
  }

  lemma DumpIndexBack(parse: Interact.CommandParser, p: char -> bool, idx: string, k: string)
    ensures ComesBack(parse, p, DumpByIndex(idx), k) <==>
            parse("dump_index" + (" " + (idx + (";\n" + k)))) == Done(DumpIndex(idx), Spaces(k))
  {
    Replay.WordLines();
    Replay.LineText("dump_index", idx, k);
  }

  lemma DumpBack(parse: Interact.CommandParser, p: char -> bool, rel: string, k: string)
    ensures ComesBack(parse, p, DumpTable(rel), k) <==>
            parse("dump" + (" " + (rel + (";\n" + k)))) == Done(Dump(Some(rel)), Spaces(k))
  {
    Replay.WordLines();
    Replay.LineText("dump", rel, k);
  }

  lemma LabelBack(parse: Interact.CommandParser, p: char -> bool, tag: Option<string>, k: string)
    ensures var t := if tag.Some? then " " + tag.value else "";
      && (ComesBack(parse, p, DumpProfile(tag), k) <==>
          parse("profile" + (t + (";\n" + k))) == Done(Profile(None), Spaces(k)))
      && (Blank(t) <==> CallOk(p, DumpProfile(tag)))
  {
    Replay.LabelText(tag, k);
    if tag.Some? {
      BlankAfterBlank(tag.value);
    }
  }

  lemma BlankAfterBlank(t: string)
    ensures Blank(" " + t) <==> Blank(t)
  {
    assert forall i :: 0 <= i < |t| ==> (" " + t)[i + 1] == t[i];
  }

  /** A recorded call other than a batch, without doubles, is read back as its command and with
      nothing else consumed if and only if its names are identifiers, its key is readable and its
      label is blank. */
  lemma CallRoundTrip(p: char -> bool, c: Call, k: string)
    requires CallFloatless(c) && !c.ApplyUpdates?
    ensures ComesBack(ParseCommand, p, c, k) <==> CallOk(p, c)
  {
    match c
    case ClearRelation(rel) =>
      ClearRoundTrip(rel, k);
      ClearBack(ParseCommand, p, rel, k);
    case QueryByIndex(idx, key) =>
      QueryRoundTrip(p, idx, key, k);
      QueryBack(ParseCommand, p, idx, key, k);
    case DumpByIndex(idx) =>
      DumpIndexRoundTrip(idx, k);
      DumpIndexBack(ParseCommand, p, idx, k);
    case DumpTable(rel) =>
      DumpRoundTrip(rel, k);
      DumpBack(ParseCommand, p, rel, k);
    case DumpProfile(tag) =>
      LabelRoundTrip(if tag.Some? then " " + tag.value else "", k);
      LabelBack(ParseCommand, p, tag, k);
    case _ =>
      Replay.CallRead(p, c, k);
  }
}
