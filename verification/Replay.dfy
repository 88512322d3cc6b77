/**
  The whole path of a recorded session: recorder, parser, reading loop and command loop
  together.  Replaying a log through a pipe repeats the recorded engine calls, one batch per
  recorded batch, however the log is cut into lines.
 */
module Replay {
  import opened Stream
  import opened Wrappers
  import opened Records
  import opened Parser
  import opened RoundTrip
  import opened Recorder
  import opened CommandLoop
  import Interact

  // ---- single lines ----------------------------------------------------------------------

  lemma Join2(a: string, b: string, c: string, k: string)
    ensures (a + b + c) + k == a + (b + (c + k))
  {
  }

  lemma LineText(word: string, name: string, k: string)
    ensures (word + " " + name + ";\n") + k == word + (" " + (name + (";\n" + k)))
  {
  }

  lemma QueryText(idx: string, d: string, k: string)
    ensures ("query_index " + idx + "(" + d + ");\n") + k ==
            "query_index" + (" " + (idx + ("(" + (d + (")" + (";\n" + k))))))
  {
    assert "query_index" + " " == "query_index " && ")" + ";\n" == ");\n";
    assert ("query_index" + " " + idx + "(" + d + (")" + ";\n")) + k ==
           "query_index" + (" " + (idx + ("(" + (d + (")" + (";\n" + k))))));
  }

  lemma ProfileLine(word: string, value: string, k: string)
    ensures ("profile" + " " + word + " " + value + ";\n") + k ==
            "profile" + (" " + (word + (" " + (value + (";\n" + k)))))
  {
  }

  lemma BareLine(word: string, k: string)
    ensures (word + ";\n") + k == word + (";\n" + k)
  {
  }

  lemma LabelText(tag: Option<string>, k: string)
    ensures var l := if tag.Some? then " " + tag.value else "";
      CallText(c => true, DumpProfile(tag)) + k == "profile" + (l + (";\n" + k))
  {
  }

  lemma CommitDumpLine(k: string)
    ensures "commit dump_changes;\n" + k == "commit" + (" " + ("dump_changes" + (";\n" + k)))
  {
    LineText("commit", "dump_changes", k);
    assert "commit" + " " + "dump_changes" + ";\n" == "commit dump_changes;\n";
  }

  lemma WordLines()
    ensures "start" + ";\n" == "start;\n" && "commit" + ";\n" == "commit;\n"
    ensures "rollback" + ";\n" == "rollback;\n" && "profile" + ";\n" == "profile;\n"
    ensures "clear" + " " == "clear " && "dump" + " " == "dump " && "dump_index" + " " == "dump_index "
  {
  }

  /** Every recorded call other than a batch is read back as its command. */
  lemma CallRead(p: char -> bool, c: Call, k: string)
    requires CallOk(p, c) && !c.ApplyUpdates?
    ensures ParseCommand(CallText(p, c) + k) == Done(CallCommand(c), Spaces(k))
  {
    WordLines();
    match c
    case TransactionStart =>
      BareLine("start", k);
      StartRead(k);
    case TransactionCommit(dump) =>
      if dump {
        CommitDumpLine(k);
        CommitDumpRead(k);
      } else {
        BareLine("commit", k);
        CommitRead(k);
      }
    case TransactionRollback =>
      BareLine("rollback", k);
      RollbackRead(k);
    case ClearRelation(rel) =>
      LineText("clear", rel, k);
      ClearRead(rel, k);
    case QueryByIndex(idx, key) =>
      QueryText(idx, Display(p, key), k);
      QueryRead(p, idx, key, k);
    case DumpByIndex(idx) =>
      LineText("dump_index", idx, k);
      DumpIndexRead(idx, k);
    case DumpTable(rel) =>
      LineText("dump", rel, k);
      DumpRead(rel, k);
    case EnableProfiling(profile) =>
      ProfileLine(ProfileWord(profile), if profile.on then "on" else "off", k);
      ProfileRead(profile, k);
    case DumpProfile(tag) =>
      LabelText(tag, k);
      DumpProfileRead(if tag.Some? then " " + tag.value else "", k);
  }

  /** The first two letters of an update rule out every other command. */
  lemma UpdHead(p: char -> bool, u: UpdCmd, t: string)
    ensures var x := UpdText(p, u) + t;
      && |x| > 1
      && (x[0] == 'i' || (x[0] == 'd' && x[1] == 'e') || (x[0] == 'm' && x[1] == 'o'))
  {
    match u
    case Insert(rel, rec) => RelTextSplit("insert", rel, Display(p, rec), t);
    case InsertOrUpdate(rel, rec) => RelTextSplit("insert_or_update", rel, Display(p, rec), t);
    case Delete(rel, rec) => RelTextSplit("delete", rel, Display(p, rec), t);
    case DeleteKey(rel, key) => KeyTextSplit("delete_key", rel, Display(p, key), t);
    case Modify(rel, key, mutator) => ModifyText(rel, Display(p, key), Display(p, mutator), t);
  }

  lemma OnlyUpdate(x: string)
    requires |x| > 1 && (x[0] == 'i' || (x[0] == 'd' && x[1] == 'e') || (x[0] == 'm' && x[1] == 'o'))
    ensures ParseCommand(x) == UpdateCmd(x)
  {
    if x[0] == 'd' {
      TagDiffers("dump", x, 1);
      TagDiffers("dump_index", x, 1);
      assert DumpCmd(x) == Fail && DumpIndexCmd(x) == Fail;
      PickedDump(x);
    } else {
      TagDiffers("mssleep", x, if x[0] == 'm' then 1 else 0);
      assert SleepCmd(x) == Fail;
      PickedUpdate(x);
    }
  }

  function Separator(last: bool): string {
    if last then ";\n" else ",\n"
  }

  lemma LastRead(last: bool, k: string)
    ensures Delimited(Separator(last) + k) && Spaces(Separator(last) + k) == Separator(last) + k
    ensures Last(Separator(last) + k) == Done(last, Spaces(k))
  {
    var x := Separator(last) + k;
    TagHead(";", x);
    TagHead(",", x);
    assert x[1..] == "\n" + k && ("\n" + k)[1..] == k;
  }

  /** Every recorded update is read back with the flag that closes or continues its batch. */
  lemma UpdateLineRead(p: char -> bool, u: UpdCmd, last: bool, k: string)
    requires UpdOk(p, u)
    ensures ParseCommand(UpdText(p, u) + (Separator(last) + k)) == Done(Update(NormUpd(u), last), Spaces(k))
  {
    var t := Separator(last) + k;
    LastRead(last, k);
    UpdHead(p, u, t);
    OnlyUpdate(UpdText(p, u) + t);
    UpdateRead(p, u, t);
  }

  // ---- replaying -------------------------------------------------------------------------

  /** The callback that `run` gives to the reading loop: the program's state, and whether the
      last command went well. */
  function Handler<Upd>(env: Env<Upd>): ((State<Upd>, bool), Command) -> ((State<Upd>, bool), bool) {
    (s: (State<Upd>, bool), c: Command) =>
      var (st, r) := Step(env, false, s.0, c);
      ((st, r.ok), r.go)
  }

  function Value<Upd>(env: Env<Upd>, u: UpdCmd): seq<Upd> {
    match env.convert(NormUpd(u))
    case Some(v) => [v]
    case None => []
  }

  function Values<Upd>(env: Env<Upd>, us: seq<UpdCmd>): seq<Upd> {
    if us == [] then [] else Value(env, us[0]) + Values(env, us[1..])
  }

  /** The engine events of a recorded call.  A batch without updates leaves no trace. */
  function CallEvents<Upd>(env: Env<Upd>, c: Call): seq<Event<Upd>> {
    match c
    case TransactionStart => [Begin]
    case TransactionCommit(dump) => [End(dump)]
    case TransactionRollback => [Abort]
    case ApplyUpdates(us) => if us == [] then [] else [Apply(Values(env, us))]
    case ClearRelation(rel) => [Wipe(rel)]
    case QueryByIndex(idx, key) => [ReadIndex(idx, Norm(key))]
    case DumpByIndex(idx) => [ReadWholeIndex(idx)]
    case DumpTable(rel) => [ShowRelation(Some(rel))]
    case EnableProfiling(profile) => [SetProfiling(profile)]
    case DumpProfile(_) => [WriteProfile]
  }

  function Events<Upd>(env: Env<Upd>, cs: seq<Call>): seq<Event<Upd>> {
    if cs == [] then [] else CallEvents(env, cs[0]) + Events(env, cs[1..])
  }

  /** The program knows the names in a call and can convert its values. */
  predicate Known<Upd>(env: Env<Upd>, c: Call) {
    match c
    case ApplyUpdates(us) => forall i :: 0 <= i < |us| ==> env.convert(NormUpd(us[i])).Some?
    case ClearRelation(rel) => env.isInput(rel)
    case QueryByIndex(idx, key) => env.isIndex(idx) && env.keyFits(idx, Norm(key))
    case DumpByIndex(idx) => env.isIndex(idx)
    case DumpTable(rel) => env.isOutput(rel)
    case _ => true
  }

  /** The engine accepts these events, one after the other, after `log`. */
  predicate Accepts<Upd>(env: Env<Upd>, log: seq<Event<Upd>>, es: seq<Event<Upd>>)
    decreases |es|
  {
    es != [] ==> env.accepts(log + [es[0]]) && Accepts(env, log + [es[0]], es[1..])
  }

  lemma {:induction false} AcceptsCat<Upd>(env: Env<Upd>, log: seq<Event<Upd>>, a: seq<Event<Upd>>, b: seq<Event<Upd>>)
    requires Accepts(env, log, a + b)
    ensures Accepts(env, log, a) && Accepts(env, log + a, b)
    decreases |a|
  {
    if a == [] {
      assert a + b == b && log + a == log;
    } else {
      assert (a + b)[1..] == a[1..] + b;
      assert log + [a[0]] + a[1..] == log + a;
      AcceptsCat(env, log + [a[0]], a[1..], b);
    }
  }

  ghost predicate ReadsCall(parse: Interact.CommandParser, p: char -> bool, c: Call, k: string) {
    CallOk(p, c) && !c.ApplyUpdates? ==> parse(CallText(p, c) + k) == Done(CallCommand(c), Spaces(k))
  }

  ghost predicate ReadsUpd(parse: Interact.CommandParser, p: char -> bool, u: UpdCmd, last: bool, k: string) {
    UpdOk(p, u) ==> parse(UpdText(p, u) + (Separator(last) + k)) == Done(Update(NormUpd(u), last), Spaces(k))
  }

  /** A parser that can be fed line by line and reads what the recorder writes. */
  ghost predicate ReadsBack(parse: Interact.CommandParser, p: char -> bool) {
    && Interact.Streams(parse)
    && (forall c, k :: ReadsCall(parse, p, c, k))
    && (forall u, last, k :: ReadsUpd(parse, p, u, last, k))
  }

  lemma ParserReadsBack(p: char -> bool)
    ensures ReadsBack(ParseCommand, p)
  {
    Interact.ParserStreams();
    forall c, k
      ensures ReadsCall(ParseCommand, p, c, k)
    {
      if CallOk(p, c) && !c.ApplyUpdates? {
        CallRead(p, c, k);
      }
    }
    forall u, last, k
      ensures ReadsUpd(ParseCommand, p, u, last, k)
    {
      if UpdOk(p, u) {
        UpdateLineRead(p, u, last, k);
      }
    }
  }

  lemma DriveStep<Upd>(parse: Interact.CommandParser, env: Env<Upd>, s: (State<Upd>, bool), x: string, c: Command,
                       k: string)
    requires Interact.Streams(parse) && parse(x) == Done(c, Spaces(k)) && Step(env, false, s.0, c).1.go
    ensures Interact.Drive(parse, Handler(env), s, x) ==
            Interact.Drive(parse, Handler(env), (Step(env, false, s.0, c).0, Step(env, false, s.0, c).1.ok), k)
  {
    Interact.DriveSpaces(parse, Handler(env), (Step(env, false, s.0, c).0, Step(env, false, s.0, c).1.ok), k);
  }

  lemma CallStep<Upd>(env: Env<Upd>, c: Call, log: seq<Event<Upd>>)
    requires Known(env, c) && !c.ApplyUpdates? && Accepts(env, log, CallEvents(env, c))
    ensures Step(env, false, State([], log), CallCommand(c)) == (State([], log + CallEvents(env, c)), Reply(true, true))
  {
  }

  /** A call that is not a batch. */
  lemma ReplayCall<Upd>(parse: Interact.CommandParser, env: Env<Upd>, p: char -> bool, c: Call, log: seq<Event<Upd>>,
                        k: string)
    requires ReadsBack(parse, p)
    requires CallOk(p, c) && Known(env, c) && !c.ApplyUpdates? && Accepts(env, log, CallEvents(env, c))
    ensures Interact.Drive(parse, Handler(env), (State([], log), true), CallText(p, c) + k) ==
            Interact.Drive(parse, Handler(env), (State([], log + CallEvents(env, c)), true), k)
  {
    assert ReadsCall(parse, p, c, k);
    CallStep(env, c, log);
    DriveStep(parse, env, (State([], log), true), CallText(p, c) + k, CallCommand(c), k);
  }

  lemma LastStep<Upd>(env: Env<Upd>, done: seq<Upd>, us: seq<UpdCmd>, log: seq<Event<Upd>>)
    requires |us| == 1 && Known(env, ApplyUpdates(us))
    requires env.accepts(log + [Apply(done + Values(env, us))])
    ensures Step(env, false, State(done, log), Update(NormUpd(us[0]), true)) ==
            (State([], log + [Apply(done + Values(env, us))]), Reply(true, true))
  {
    assert us[1..] == [] && Values(env, us) == Value(env, us[0]) + [];
    assert Value(env, us[0]) + [] == Value(env, us[0]);
  }

  lemma MoreStep<Upd>(env: Env<Upd>, done: seq<Upd>, us: seq<UpdCmd>, log: seq<Event<Upd>>)
    requires us != [] && Known(env, ApplyUpdates(us))
    ensures Step(env, false, State(done, log), Update(NormUpd(us[0]), false)) ==
            (State(done + Value(env, us[0]), log), Reply(true, true))
  {
  }

  /** The first update of what is left of a batch, when it is not the last. */
  lemma ReplayMore<Upd>(parse: Interact.CommandParser, env: Env<Upd>, p: char -> bool, done: seq<Upd>,
                        us: seq<UpdCmd>, log: seq<Event<Upd>>, k: string)
    requires ReadsBack(parse, p)
    requires |us| > 1 && CallOk(p, ApplyUpdates(us)) && Known(env, ApplyUpdates(us))
    ensures Interact.Drive(parse, Handler(env), (State(done, log), true), BatchText(p, us) + k) ==
            Interact.Drive(parse, Handler(env), (State(done + Value(env, us[0]), log), true), BatchText(p, us[1..]) + k)
  {
    var rest := BatchText(p, us[1..]) + k;
    BatchLine(p, us, k);
    MoreStep(env, done, us, log);
    assert ReadsUpd(parse, p, us[0], false, rest);
    DriveStep(parse, env, (State(done, log), true), BatchText(p, us) + k, Update(NormUpd(us[0]), false), rest);
  }

  /** The last update of a batch. */
  lemma ReplayLast<Upd>(parse: Interact.CommandParser, env: Env<Upd>, p: char -> bool, done: seq<Upd>,
                        us: seq<UpdCmd>, log: seq<Event<Upd>>, k: string)
    requires ReadsBack(parse, p)
    requires |us| == 1 && CallOk(p, ApplyUpdates(us)) && Known(env, ApplyUpdates(us))
    requires env.accepts(log + [Apply(done + Values(env, us))])
    ensures Interact.Drive(parse, Handler(env), (State(done, log), true), BatchText(p, us) + k) ==
            Interact.Drive(parse, Handler(env), (State([], log + [Apply(done + Values(env, us))]), true), k)
  {
    BatchLine(p, us, k);
    BatchEnd(p, us, k);
    assert ReadsUpd(parse, p, us[0], true, k);
    LastStep(env, done, us, log);
    DriveStep(parse, env, (State(done, log), true), BatchText(p, us) + k, Update(NormUpd(us[0]), true), k);
  }

  lemma BatchLine(p: char -> bool, us: seq<UpdCmd>, k: string)
    requires us != []
    ensures BatchText(p, us) + k == UpdText(p, us[0]) + (Separator(|us| == 1) + (BatchText(p, us[1..]) + k))
  {
    Join2(UpdText(p, us[0]), Separator(|us| == 1), BatchText(p, us[1..]), k);
  }

  lemma ValuesSplit<Upd>(env: Env<Upd>, done: seq<Upd>, us: seq<UpdCmd>)
    requires us != []
    ensures done + Value(env, us[0]) + Values(env, us[1..]) == done + Values(env, us)
  {
  }

  /** The rest of a batch, when `done` is already in the buffer. */
  lemma {:induction false} ReplayBatch<Upd>(parse: Interact.CommandParser, env: Env<Upd>, p: char -> bool,
                                            done: seq<Upd>, us: seq<UpdCmd>, log: seq<Event<Upd>>, k: string)
    requires ReadsBack(parse, p)
    requires us != [] && CallOk(p, ApplyUpdates(us)) && Known(env, ApplyUpdates(us))
    requires env.accepts(log + [Apply(done + Values(env, us))])
    ensures Interact.Drive(parse, Handler(env), (State(done, log), true), BatchText(p, us) + k) ==
            Interact.Drive(parse, Handler(env), (State([], log + [Apply(done + Values(env, us))]), true), k)
    decreases |us|
  {
    if |us| == 1 {
      ReplayLast(parse, env, p, done, us, log, k);
    } else {
      ReplayMore(parse, env, p, done, us, log, k);
      ValuesSplit(env, done, us);
      ReplayBatch(parse, env, p, done + Value(env, us[0]), us[1..], log, k);
    }
  }

  lemma BatchEnd(p: char -> bool, us: seq<UpdCmd>, k: string)
    requires |us| == 1
    ensures BatchText(p, us[1..]) + k == k
  {
    assert us[1..] == [];
  }

  lemma ReplayOne<Upd>(parse: Interact.CommandParser, env: Env<Upd>, p: char -> bool, c: Call, log: seq<Event<Upd>>,
                       k: string)
    requires ReadsBack(parse, p)
    requires CallOk(p, c) && Known(env, c) && Accepts(env, log, CallEvents(env, c))
    ensures Interact.Drive(parse, Handler(env), (State([], log), true), CallText(p, c) + k) ==
            Interact.Drive(parse, Handler(env), (State([], log + CallEvents(env, c)), true), k)
  {
    if !c.ApplyUpdates? {
      ReplayCall(parse, env, p, c, log, k);
    } else if c.upds == [] {
      assert CallText(p, c) + k == k && log + CallEvents(env, c) == log;
    } else {
      assert [] + Values(env, c.upds) == Values(env, c.upds);
      ReplayBatch(parse, env, p, [], c.upds, log, k);
    }
  }

  lemma EventsSplit<Upd>(env: Env<Upd>, log: seq<Event<Upd>>, cs: seq<Call>)
    requires cs != [] && Accepts(env, log, Events(env, cs))
    ensures var es := CallEvents(env, cs[0]);
      && Accepts(env, log, es) && Accepts(env, log + es, Events(env, cs[1..]))
      && log + es + Events(env, cs[1..]) == log + Events(env, cs)
  {
    var a, b := CallEvents(env, cs[0]), Events(env, cs[1..]);
    assert Events(env, cs) == a + b;
    AcceptsCat(env, log, a, b);
    SeqAssoc(log, a, b);
  }

  lemma SeqAssoc<T>(a: seq<T>, b: seq<T>, c: seq<T>)
    ensures a + b + c == a + (b + c)
  {
  }

  lemma {:induction false} ReplayFrom<Upd>(parse: Interact.CommandParser, env: Env<Upd>, p: char -> bool,
                                           cs: seq<Call>, log: seq<Event<Upd>>)
    requires ReadsBack(parse, p)
    requires forall i :: 0 <= i < |cs| ==> CallOk(p, cs[i]) && Known(env, cs[i])
    requires Accepts(env, log, Events(env, cs))
    ensures Interact.Drive(parse, Handler(env), (State([], log), true), LogText(p, cs)) ==
            Interact.Reading((State([], log + Events(env, cs)), true), "")
    decreases |cs|
  {
    if cs == [] {
      assert log + [] == log;
    } else {
      var es := CallEvents(env, cs[0]);
      EventsSplit(env, log, cs);
      ReplayOne(parse, env, p, cs[0], log, LogText(p, cs[1..]));
      ReplayFrom(parse, env, p, cs[1..], log + es);
    }
  }

  lemma ReplayWhole<Upd>(parse: Interact.CommandParser, env: Env<Upd>, p: char -> bool, cs: seq<Call>)
    requires ReadsBack(parse, p)
    requires forall i :: 0 <= i < |cs| ==> CallOk(p, cs[i]) && Known(env, cs[i])
    requires Accepts(env, [], Events(env, cs))
    ensures Interact.Drive(parse, Handler(env), (State([], []), true), LogText(p, cs)) ==
            Interact.Reading((State([], Events(env, cs)), true), "")
  {
    ReplayFrom(parse, env, p, cs, []);
    assert [] + Events(env, cs) == Events(env, cs);
  }

  /** A recorded session with readable records, replayed on a program that knows its names and
      an engine that accepts its calls: for every way of cutting the log into lines, the replay
      makes exactly the recorded engine calls in order (records in normal form, batches whole,
      empty batches gone), succeeds, and leaves neither a buffered update nor unread input. */
  lemma ReplayTheorem<Upd>(env: Env<Upd>, p: char -> bool, cs: seq<Call>, lines: seq<string>)
    requires forall i :: 0 <= i < |cs| ==> CallOk(p, cs[i]) && Known(env, cs[i])
    requires Accepts(env, [], Events(env, cs))
    requires Interact.Concat(lines) == LogText(p, cs)
    ensures Interact.Streams(ParseCommand)
    ensures Interact.Session(ParseCommand, Handler(env), (State([], []), true), lines, false) ==
            Interact.Reading((State([], Events(env, cs)), true), "")
  {
    ParserReadsBack(p);
    ReplayLines(ParseCommand, env, p, cs, lines);
  }

  lemma ReplayLines<Upd>(parse: Interact.CommandParser, env: Env<Upd>, p: char -> bool, cs: seq<Call>,
                         lines: seq<string>)
    requires ReadsBack(parse, p)
    requires forall i :: 0 <= i < |cs| ==> CallOk(p, cs[i]) && Known(env, cs[i])
    requires Accepts(env, [], Events(env, cs))
    requires Interact.Concat(lines) == LogText(p, cs)
    ensures Interact.Session(parse, Handler(env), (State([], []), true), lines, false) ==
            Interact.Reading((State([], Events(env, cs)), true), "")
  {
    Interact.CutInvariance(parse, Handler(env), (State([], []), true), lines);
    ReplayWhole(parse, env, p, cs);
  }
}
