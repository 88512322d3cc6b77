/**
  `handle_cmd` of the generated command-line program (rust/template/src/main.rs): updates are
  collected and handed to the engine in batches, every other command first flushes the batch.
  The engine and the names of a DDlog program are parameters; what the engine answers may
  depend on everything that was done before.
 */
module CommandLoop {
  import opened Wrappers
  import opened Records

  /** What happens to the engine, in order.  `Discard` is not a call: it records the updates of
      a batch that is given up. */
  datatype Event<Upd> =
    | Begin
    | End(dumpChanges: bool)
    | Abort
    | Apply(upds: seq<Upd>)
    | Discard(upds: seq<Upd>)
    | Wipe(rel: string)
    | ReadIndex(idx: string, key: Record)
    | ReadWholeIndex(idx: string)
    | ShowRelation(output: Option<string>)
    | SetProfiling(profile: ProfileCmd)
    | WriteProfile

  datatype Env<!Upd> = Env(
    convert: UpdCmd -> Option<Upd>,
    isInput: string -> bool,
    isOutput: string -> bool,
    isIndex: string -> bool,
    keyFits: (string, Record) -> bool,
    accepts: seq<Event<Upd>> -> bool)

  datatype State<Upd> = State(upds: seq<Upd>, log: seq<Event<Upd>>)

  datatype Reply = Reply(ok: bool, go: bool)

  predicate IsUpdCmd(c: Command) {
    c.Update?
  }

  /** One event, and whether the engine accepts it. */
  function Issue<Upd>(env: Env<Upd>, st: State<Upd>, e: Event<Upd>): (State<Upd>, bool) {
    var log := st.log + [e];
    (st.(log := log), env.accepts(log))
  }

  /** The buffer is emptied whether or not the engine accepts the batch. */
  function Flush<Upd>(env: Env<Upd>, st: State<Upd>): (State<Upd>, bool) {
    if st.upds == [] then (st, true) else Issue(env, State([], st.log), Apply(st.upds))
  }

  /** A command other than an update, on an empty buffer. */
  function Perform<Upd>(env: Env<Upd>, st: State<Upd>, c: Command): (State<Upd>, bool)
    requires !IsUpdCmd(c)
  {
    match c
    case Start => Issue(env, st, Begin)
    case Commit(dump) => Issue(env, st, End(dump))
    case Rollback => Issue(env, st, Abort)
    case Profile(None) => (Issue(env, st, WriteProfile).0, true)
    case Profile(Some(profile)) => Issue(env, st, SetProfiling(profile))
    case Dump(None) => (Issue(env, st, ShowRelation(None)).0, true)
    case Dump(Some(rel)) => if env.isOutput(rel) then (Issue(env, st, ShowRelation(Some(rel))).0, true) else (st, false)
    case Clear(rel) => if env.isInput(rel) then Issue(env, st, Wipe(rel)) else (st, false)
    case QueryIndex(idx, key) =>
      if env.isIndex(idx) && env.keyFits(idx, key) then Issue(env, st, ReadIndex(idx, key)) else (st, false)
    case DumpIndex(idx) => if env.isIndex(idx) then Issue(env, st, ReadWholeIndex(idx)) else (st, false)
    case _ => (st, true)
  }

  /** The new state after a command and the reply to the reading loop.  A failed flush does not
      keep the command from being performed. */
  function Step<Upd>(env: Env<Upd>, interactive: bool, st: State<Upd>, c: Command): (State<Upd>, Reply) {
    match c
    case Update(upd, last) =>
      (match env.convert(upd)
       case None => (State([], st.log + [Discard(st.upds)]), Reply(false, interactive))
       case Some(v) =>
         var st' := st.(upds := st.upds + [v]);
         var (st'', ok) := if last then Flush(env, st') else (st', true);
         (st'', Reply(ok, ok || interactive)))
    case _ =>
      var (st1, flushed) := Flush(env, st);
      var (st2, ok) := Perform(env, st1, c);
      if c.Exit? then (st2, Reply(true, false))
      else (st2, Reply(flushed && ok, (flushed && ok) || interactive))
  }

  /** The state of the program, updated in place. */
  class Loop<Upd> {
    var upds: seq<Upd>
    var log: seq<Event<Upd>>

    ghost function Now(): State<Upd>
      reads this
    {
      State(upds, log)
    }

    constructor ()
      ensures Now() == State([], [])
    {
      upds, log := [], [];
    }

    method Call(env: Env<Upd>, e: Event<Upd>) returns (ok: bool)
      modifies this`log
      ensures log == old(log) + [e] && ok == env.accepts(log)
    {
      log := log + [e];
      ok := env.accepts(log);
    }

    method ApplyUpdates(env: Env<Upd>) returns (ok: bool)
      modifies this
      ensures (Now(), ok) == Flush(env, old(Now()))
    {
      ok := true;
      if upds != [] {
        var batch := upds;
        upds := [];
        ok := Call(env, Apply(batch));
      }
    }

    method HandleCmd(env: Env<Upd>, interactive: bool, c: Command) returns (r: Reply)
      modifies this
      ensures (Now(), r) == Step(env, interactive, old(Now()), c)
    {
      var flushed := true;
      if !IsUpdCmd(c) {
        flushed := ApplyUpdates(env);
      }
      var ok := true;
      match c {
        case Start => ok := Call(env, Begin);
        case Commit(dump) => ok := Call(env, End(dump));
        case Rollback => ok := Call(env, Abort);
        case Profile(None) => var _ := Call(env, WriteProfile);
        case Profile(Some(profile)) => ok := Call(env, SetProfiling(profile));
        case Dump(None) => var _ := Call(env, ShowRelation(None));
        case Dump(Some(rel)) =>
          if !env.isOutput(rel) {
            return Reply(false, interactive);
          }
          var _ := Call(env, ShowRelation(Some(rel)));
        case Clear(rel) =>
          if !env.isInput(rel) {
            return Reply(false, interactive);
          }
          ok := Call(env, Wipe(rel));
        case Exit =>
          return Reply(true, false);
        case Update(upd, last) =>
          match env.convert(upd) {
            case Some(v) =>
              upds := upds + [v];
            case None =>
              log := log + [Discard(upds)];
              upds := [];
              return Reply(false, interactive);
          }
          if last {
            ok := ApplyUpdates(env);
          }
        case QueryIndex(idx, key) =>
          if env.isIndex(idx) && env.keyFits(idx, key) {
            ok := Call(env, ReadIndex(idx, key));
          } else {
            ok := false;
          }
        case DumpIndex(idx) =>
          if env.isIndex(idx) {
            ok := Call(env, ReadWholeIndex(idx));
          } else {
            ok := false;
          }
        case _ =>
      }
      return if flushed && ok then Reply(true, true) else Reply(false, interactive);
    }
  }

  // ---- whole runs ------------------------------------------------------------------------

  function After<Upd>(env: Env<Upd>, interactive: bool, st: State<Upd>, cs: seq<Command>): State<Upd> {
    if cs == [] then st
    else Step(env, interactive, After(env, interactive, st, cs[..|cs| - 1]), cs[|cs| - 1]).0
  }

  /** The updates that could be converted, in the order they were read. */
  function Converted<Upd>(env: Env<Upd>, cs: seq<Command>): seq<Upd> {
    if cs == [] then []
    else
      var c := cs[|cs| - 1];
      Converted(env, cs[..|cs| - 1]) +
      (if c.Update? && env.convert(c.upd).Some? then [env.convert(c.upd).value] else [])
  }

  /** The updates that the log says were handed to the engine or discarded. */
  function Settled<Upd>(log: seq<Event<Upd>>): seq<Upd> {
    if log == [] then []
    else
      var e := log[|log| - 1];
      Settled(log[..|log| - 1]) + (if e.Apply? || e.Discard? then e.upds else [])
  }

  lemma SettledSnoc<Upd>(log: seq<Event<Upd>>, e: Event<Upd>)
    ensures Settled(log + [e]) == Settled(log) + if e.Apply? || e.Discard? then e.upds else []
  {
    assert (log + [e])[..|log|] == log;
  }

  /** One step settles updates in order and loses none. */
  lemma StepConserves<Upd>(env: Env<Upd>, interactive: bool, st: State<Upd>, c: Command)
    ensures var st' := Step(env, interactive, st, c).0;
      Settled(st'.log) + st'.upds ==
      Settled(st.log) + st.upds + if c.Update? && env.convert(c.upd).Some? then [env.convert(c.upd).value] else []
  {
    var st' := Step(env, interactive, st, c).0;
    if c.Update? {
      match env.convert(c.upd)
      case None =>
        SettledSnoc(st.log, Discard(st.upds));
      case Some(v) =>
        SettledSnoc(st.log, Apply(st.upds + [v]));
        assert Settled(st.log) + (st.upds + [v]) == Settled(st.log) + st.upds + [v];
    } else {
      FlushSettles(env, st);
      PerformSettlesNothing(env, Flush(env, st).0, c);
    }
  }

  lemma FlushSettles<Upd>(env: Env<Upd>, st: State<Upd>)
    ensures var st' := Flush(env, st).0; st'.upds == [] && Settled(st'.log) == Settled(st.log) + st.upds
  {
    SettledSnoc(st.log, Apply(st.upds));
  }

  /** The one event that a command other than an update can cause. */
  function EventOf<Upd>(c: Command): Event<Upd> {
    match c
    case Commit(dump) => End(dump)
    case Rollback => Abort
    case Profile(None) => WriteProfile
    case Profile(Some(profile)) => SetProfiling(profile)
    case Dump(rel) => ShowRelation(rel)
    case Clear(rel) => Wipe(rel)
    case QueryIndex(idx, key) => ReadIndex(idx, key)
    case DumpIndex(idx) => ReadWholeIndex(idx)
    case _ => Begin
  }

  lemma PerformEvent<Upd>(env: Env<Upd>, st: State<Upd>, c: Command)
    requires !IsUpdCmd(c)
    ensures var st' := Perform(env, st, c).0;
      st' == st || st' == State(st.upds, st.log + [EventOf(c)])
  {
  }

  lemma PerformSettlesNothing<Upd>(env: Env<Upd>, st: State<Upd>, c: Command)
    requires !IsUpdCmd(c)
    ensures var st' := Perform(env, st, c).0;
      && st'.upds == st.upds
      && Settled(st'.log) == Settled(st.log)
      && st.log <= st'.log && |st'.log| <= |st.log| + 1
      && (forall i :: |st.log| <= i < |st'.log| ==> !st'.log[i].Apply? && !st'.log[i].Discard?)
  {
    PerformEvent(env, st, c);
    SettledSnoc(st.log, EventOf(c));
    assert Settled(st.log) + [] == Settled(st.log);
  }

  /** Over every run, each converted update is exactly once in an engine batch or a discarded
      batch or still buffered, and in the order it was read. */
  lemma {:induction false} Conservation<Upd>(env: Env<Upd>, interactive: bool, cs: seq<Command>)
    ensures var st := After(env, interactive, State([], []), cs);
      Settled(st.log) + st.upds == Converted(env, cs)
  {
    if cs != [] {
      var init := cs[..|cs| - 1];
      Conservation(env, interactive, init);
      StepConserves(env, interactive, After(env, interactive, State([], []), init), cs[|cs| - 1]);
    }
  }

  /** A command that is not an update finds every update read before it settled: the log grows
      first by the pending batch, if there is one, and then by at most one event of the command. */
  lemma NonUpdateMeetsEmptyBuffer<Upd>(env: Env<Upd>, interactive: bool, cs: seq<Command>, c: Command)
    requires !IsUpdCmd(c)
    ensures var st := After(env, interactive, State([], []), cs);
      var st' := Step(env, interactive, st, c).0;
      var flushed := if st.upds == [] then st.log else st.log + [Apply(st.upds)];
      && st'.upds == []
      && flushed <= st'.log && |st'.log| <= |flushed| + 1
      && Settled(flushed) == Converted(env, cs)
  {
    var st := After(env, interactive, State([], []), cs);
    Conservation(env, interactive, cs);
    NonUpdateStep(env, interactive, st, c);
    FlushSettles(env, st);
  }

  lemma NonUpdateStep<Upd>(env: Env<Upd>, interactive: bool, st: State<Upd>, c: Command)
    requires !IsUpdCmd(c)
    ensures var st1 := Flush(env, st).0;
      var st' := Step(env, interactive, st, c).0;
      && st1.log == (if st.upds == [] then st.log else st.log + [Apply(st.upds)])
      && st'.upds == []
      && st1.log <= st'.log && |st'.log| <= |st1.log| + 1
      && (forall i :: |st1.log| <= i < |st'.log| ==> !st'.log[i].Apply? && !st'.log[i].Discard?)
  {
    PerformSettlesNothing(env, Flush(env, st).0, c);
  }

  ghost predicate NoEmptyBatch<Upd>(log: seq<Event<Upd>>) {
    forall i :: 0 <= i < |log| && log[i].Apply? ==> log[i].upds != []
  }

  /** The engine is never called for an empty batch. */
  lemma {:induction false} BatchesAreNotEmpty<Upd>(env: Env<Upd>, interactive: bool, cs: seq<Command>)
    ensures NoEmptyBatch(After(env, interactive, State([], []), cs).log)
  {
    if cs != [] {
      var init, c := cs[..|cs| - 1], cs[|cs| - 1];
      BatchesAreNotEmpty(env, interactive, init);
      var st := After(env, interactive, State([], []), init);
      if !c.Update? {
        NonUpdateStep(env, interactive, st, c);
        var log1, log2 := Flush(env, st).0.log, Step(env, interactive, st, c).0.log;
        assert NoEmptyBatch(log1);
        assert forall i :: 0 <= i < |log1| ==> log2[i] == log1[i];
      }
    }
  }

  // ---- what a command does and answers ---------------------------------------------------

  /** Commands that ask something of the engine. */
  predicate AsksEngine(c: Command) {
    c.Start? || c.Commit? || c.Rollback? || c.Profile? || c.Dump? || c.Clear? || c.QueryIndex? || c.DumpIndex?
  }

  /** The relation or index of a command is there, and of the right kind. */
  predicate Named<Upd>(env: Env<Upd>, c: Command) {
    match c
    case Dump(Some(rel)) => env.isOutput(rel)
    case Clear(rel) => env.isInput(rel)
    case QueryIndex(idx, key) => env.isIndex(idx) && env.keyFits(idx, key)
    case DumpIndex(idx) => env.isIndex(idx)
    case _ => true
  }

  /** The engine's answer decides; for a dump of the database or of a profile it does not. */
  predicate Answered(c: Command) {
    AsksEngine(c) && !c.Dump? && c != Profile(None)
  }

  /** A command other than an update: the pending batch comes first, then the event of the command,
      if it has one and its names are known.  It goes well exactly if the engine accepts the batch
      and the event and the names are known.  Only `exit` ends an interactive session, and from a
      pipe so does what does not go well. */
  lemma NonUpdateExact<Upd>(env: Env<Upd>, interactive: bool, st: State<Upd>, c: Command)
    requires !c.Update?
    ensures var (st', r) := Step(env, interactive, st, c);
      var batch := if st.upds == [] then [] else [Apply(st.upds)];
      var event := if AsksEngine(c) && Named(env, c) then [EventOf(c)] else [];
      && st' == State([], st.log + batch + event)
      && (c.Exit? ==> r == Reply(true, false))
      && (!c.Exit? ==>
            && (r.ok <==>
                  && (st.upds != [] ==> env.accepts(st.log + batch))
                  && Named(env, c)
                  && (Answered(c) ==> env.accepts(st.log + batch + event)))
            && (r.go <==> r.ok || interactive))
  {
    var batch := if st.upds == [] then [] else [Apply(st.upds)];
    assert Flush(env, st).0 == State([], st.log + batch);
  }

  /** An update: it waits in the buffer, or goes to the engine with the buffer if it is the last of
      its batch, or is given up with the buffer if it cannot be converted. */
  lemma UpdateExact<Upd>(env: Env<Upd>, interactive: bool, st: State<Upd>, u: UpdCmd, last: bool)
    ensures var (st', r) := Step(env, interactive, st, Update(u, last));
      && (env.convert(u).None? ==> st' == State([], st.log + [Discard(st.upds)]) && !r.ok)
      && (env.convert(u).Some? ==>
            var upds := st.upds + [env.convert(u).value];
            && (!last ==> st' == State(upds, st.log) && r.ok)
            && (last ==> st' == State([], st.log + [Apply(upds)]) && (r.ok <==> env.accepts(st.log + [Apply(upds)]))))
      && (r.go <==> r.ok || interactive)
  {
  }
}
