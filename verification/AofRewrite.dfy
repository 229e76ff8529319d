/** Rewriting the append-only file in the background: while a child writes a snapshot, the parent
    sends it what is fed meanwhile over a pipe, and appends the rest itself. Nothing is lost,
    repeated or reordered. The log replays to the live dataset as far as the logged commands do. */
module AofRewrite {
  import opened Wrappers
  import opened Memory
  import opened AofCodec
  import opened AofReplay
  import AofExpire

  // ---- feeding ----

  /** The fixed part of the text of a SELECT: *2, $6, SELECT and the mark of the next length. */
  function SelectHead(): Bytes { [42, 50, 13, 10, 36, 54, 13, 10, 83, 69, 76, 69, 67, 84, 13, 10, 36] }

  lemma SelectText(d: nat)
    ensures Print(Select(d)) == SelectHead() + Dec(|Dec(d)|) + CrLf() + Dec(d) + CrLf()
  {
    hide Dec, Print, PrintArg, SelectWord, SelectHead, CrLf, Line;
    var word, num := SelectWord(), Dec(d);
    PrintPair(word, num);
    PrintArgIs(num);
    HeadIs();
    Join(Line(STAR, 2), PrintArg(word), [DOLLAR], Dec(|num|), CrLf(), num);
  }

  lemma PrintPair(a: Bytes, b: Bytes)
    ensures Print([a, b]) == Line(STAR, 2) + (PrintArg(a) + PrintArg(b))
  {
    hide Dec, PrintArg, Line;
    var argv: Argv := [a, b];
    assert argv[1..] == [b] && argv[1..][1..] == [];
    assert PrintArgs(argv) == PrintArg(a) + (PrintArg(b) + PrintArgs([]));
  }

  lemma HeadIs()
    ensures Line(STAR, 2) + PrintArg(SelectWord()) + [DOLLAR] == SelectHead()
  {
    hide Dec;
    SmallNumbers();
    assert |SelectWord()| == 6;
  }

  lemma Join(a: Bytes, b: Bytes, c: Bytes, l: Bytes, e: Bytes, n: Bytes)
    ensures a + (b + (c + l + e + n + e)) == a + b + c + l + e + n + e
  {
  }

  lemma SmallNumbers()
    ensures Dec(2) == [50] && Dec(6) == [54]
  {
  }

  /** The text feedAppendOnlyFile builds: its handwritten SELECT is what the printer would print,
      and commands with a time to live are translated. */
  method FeedText(selected: Option<nat>, d: nat, c: AofExpire.Call, now: Clock)
    returns (buf: Bytes, selected': Option<nat>)
    requires AofExpire.ArityOk(c)
    ensures buf == PrintAll(Emit(selected, d, AofExpire.Translate(c, now))) && selected' == Some(d)
  {
    hide Print, PrintAll, Dec, Select, SelectHead, CrLf, AofExpire.ExpireAtArgv;
    buf, selected' := [], selected;
    if selected != Some(d) {
      var seldb := Dec(d);
      buf := buf + (SelectHead() + Dec(|seldb|) + CrLf() + seldb + CrLf());
      SelectText(d);
      selected' := Some(d);
    }
    ghost var head := if selected != Some(d) then [Select(d)] else [];
    PrintOne(Select(d));
    ghost var run := AofExpire.Translate(c, now);
    PrintAllConcat(head, run);
    if c.proc.Expire? || c.proc.PExpire? || c.proc.ExpireAt? {
      PrintOne(run[0]);
      buf := AofExpire.CatExpireAtCommand(buf, c.proc, c.argv[1], c.argv[2], now);
    } else if c.proc.SetEx? || c.proc.PSetEx? {
      PrintTwo(run[0], run[1]);
      buf := CatGenericCommand(buf, [AofExpire.SetWord(), c.argv[1], c.argv[3]]);
      buf := AofExpire.CatExpireAtCommand(buf, c.proc, c.argv[1], c.argv[2], now);
    } else {
      PrintOne(run[0]);
      buf := CatGenericCommand(buf, c.argv);
    }
  }

  lemma PrintOne(argv: Argv)
    ensures PrintAll([argv]) == Print(argv) && PrintAll([]) == []
  {
    hide Print;
    var cmds := [argv];
    assert cmds[1..] == [];
    assert PrintAll(cmds) == Print(cmds[0]) + PrintAll(cmds[1..]);
  }

  lemma PrintTwo(a: Argv, b: Argv)
    ensures PrintAll([a, b]) == Print(a) + Print(b)
  {
    hide Print, PrintAll;
    assert [a] + [b] == [a, b];
    PrintAllConcat([a], [b]);
    PrintOne(a);
    PrintOne(b);
  }

  // ---- the protocol ----

  datatype Phase = Working | Asking | Finished | Failed

  /** A rewrite under way: the child's snapshot, what it has read of the difference, the data
      pipe, what the parent still buffers, the stop flag, the acknowledgement pipes, and the
      file the child leaves. snapshot and fed are history. */
  datatype Rewrite = Rewrite(
    snapshot: seq<Argv>, fed: seq<Argv>,
    diff: Bytes, pipe: Bytes, pending: Bytes, stop: bool, asked: bool, acked: bool, phase: Phase, file: Bytes)

  /** The dataset and the time, the log (file and aof_buf together) with the commands it was printed
      from, and the database it is in. */
  datatype Server<Db> = Server(
    dbs: seq<Db>, now: Clock, log: Bytes, cmds: seq<Argv>, selected: Option<nat>, rewrite: Option<Rewrite>)

  datatype Event<Db> =
    | Command(d: nat, run: seq<Argv>, after: Db, at: Clock)  // database d becomes `after`; `run` is logged
    | Fork(snapshot: seq<Argv>, at: Clock)
    | Send(n: nat)                                           // the parent writes to the pipe
    | Read(n: nat)                                           // the child reads from it
    | Ask                                                    // the child asks the parent to stop
    | Ack(sent: bool)                                        // the parent stops, and may fail to say so
    | Finish                                                 // the child, told so, reads the rest and writes its file
    | Fail                                                   // the child dies or gives up
    | Done(written: bool)                                    // the parent handles the child's exit

  ghost predicate Printed(cmds: seq<Argv>) { forall i :: 0 <= i < |cmds| ==> Printable(cmds[i]) }

  /** Conservation: child, pipe and parent together hold what was fed since the fork. */
  ghost predicate Conserved(w: Rewrite) {
    && w.diff + w.pipe + w.pending == PrintAll(w.fed)
    && (w.acked ==> w.stop)
    && (w.phase == Finished ==> w.pipe == [] && w.stop && w.file == PrintAll(w.snapshot) + w.diff)
  }

  ghost predicate RewriteOk(w: Rewrite) { Conserved(w) && Printed(w.snapshot) && Printed(w.fed) }

  ghost predicate LogOk(log: Bytes, cmds: seq<Argv>) { log == PrintAll(cmds) && Printed(cmds) }

  /** What every run keeps, whatever the commands do. */
  ghost predicate Ok<Db>(s: Server<Db>) {
    LogOk(s.log, s.cmds) && (s.rewrite.Some? ==> RewriteOk(s.rewrite.value))
  }

  ghost predicate Enabled<Db>(s: Server<Db>, e: Event<Db>) {
    match e
    case Command(d, run, _, at) =>
      && d < |s.dbs| && d < Pow10(20) && s.now <= at && run != [] && Printed(run)
      && forall c :: c in run ==> !IsSelect(c)
    case Fork(snapshot, at) => s.rewrite.None? && s.now <= at && Printed(snapshot)
    case Send(n) => s.rewrite.Some? && !s.rewrite.value.stop && n <= |s.rewrite.value.pending|
    case Read(n) =>
      && s.rewrite.Some? && (s.rewrite.value.phase == Working || s.rewrite.value.phase == Asking)
      && n <= |s.rewrite.value.pipe|
    case Ask => s.rewrite.Some? && s.rewrite.value.phase == Working
    case Ack(_) => s.rewrite.Some? && s.rewrite.value.asked
    case Finish => s.rewrite.Some? && s.rewrite.value.phase == Asking && s.rewrite.value.acked
    case Fail => s.rewrite.Some? && s.rewrite.value.phase != Finished
    case Done(_) => s.rewrite.Some? && (s.rewrite.value.phase == Finished || s.rewrite.value.phase == Failed)
  }

  function Next<Db>(s: Server<Db>, e: Event<Db>): Server<Db>
    requires match e
      case Command(d, _, _, _) => d < |s.dbs|
      case Fork(_, _) => true
      case Send(n) => s.rewrite.Some? && n <= |s.rewrite.value.pending|
      case Read(n) => s.rewrite.Some? && n <= |s.rewrite.value.pipe|
      case _ => s.rewrite.Some?
  {
    match e
    case Command(d, run, after, at) =>
      var out := Emit(s.selected, d, run);
      Server(s.dbs[d := after], at, s.log + PrintAll(out), s.cmds + out, Some(d),
        if s.rewrite.None? then None
        else
          var w := s.rewrite.value;
          Some(w.(fed := w.fed + out, pending := w.pending + PrintAll(out))))
    case Fork(snapshot, at) =>
      s.(now := at, selected := None,
         rewrite := Some(Rewrite(snapshot, [], [], [], [], false, false, false, Working, [])))
    case Send(n) =>
      var w := s.rewrite.value;
      s.(rewrite := Some(w.(pipe := w.pipe + w.pending[..n], pending := w.pending[n..])))
    case Read(n) =>
      var w := s.rewrite.value;
      s.(rewrite := Some(w.(diff := w.diff + w.pipe[..n], pipe := w.pipe[n..])))
    case Ask => s.(rewrite := Some(s.rewrite.value.(asked := true, phase := Asking)))
    case Ack(sent) =>
      s.(rewrite := Some(s.rewrite.value.(asked := false, stop := true, acked := s.rewrite.value.acked || sent)))
    case Finish =>
      var w := s.rewrite.value;
      s.(rewrite := Some(w.(diff := w.diff + w.pipe, pipe := [], phase := Finished,
                            file := PrintAll(w.snapshot) + (w.diff + w.pipe))))
    case Fail => s.(rewrite := Some(s.rewrite.value.(phase := Failed)))
    case Done(written) =>
      var w := s.rewrite.value;
      if w.phase == Finished && written then
        s.(log := w.file + w.pending, cmds := w.snapshot + w.fed, selected := None, rewrite := None)
      else s.(rewrite := None)
  }

  // ---- every step keeps the bytes ----

  lemma EmitPrinted(selected: Option<nat>, d: nat, run: seq<Argv>)
    requires Printed(run) && d < Pow10(20)
    ensures Printed(Emit(selected, d, run))
  {
    hide Pow10, Printable;
    SelectPrintable(d);
  }

  lemma SelectPrintable(d: nat)
    requires d < Pow10(20)
    ensures Printable(Select(d))
  {
    DecLength(d, 20);
  }

  lemma PrintedConcat(a: seq<Argv>, b: seq<Argv>)
    requires Printed(a) && Printed(b)
    ensures Printed(a + b)
  {
    hide Printable;
  }

  lemma CommandOk<Db>(s: Server<Db>, e: Event<Db>)
    requires Ok(s) && Enabled(s, e) && e.Command?
    ensures Ok(Next(s, e))
  {
    hide PrintAll, Printed, Emit, Pow10, IsSelect;
    var out := Emit(s.selected, e.d, e.run);
    EmitPrinted(s.selected, e.d, e.run);
    PrintedConcat(s.cmds, out);
    PrintAllConcat(s.cmds, out);
    if s.rewrite.Some? {
      var w := s.rewrite.value;
      PrintedConcat(w.fed, out);
      PrintAllConcat(w.fed, out);
      Associative(w.diff + w.pipe, w.pending, PrintAll(out));
    }
  }

  lemma SendKeeps(diff: Bytes, pipe: Bytes, pending: Bytes, n: nat)
    requires n <= |pending|
    ensures diff + (pipe + pending[..n]) + pending[n..] == diff + pipe + pending
  {
    assert pending == pending[..n] + pending[n..];
  }

  lemma ReadKeeps(diff: Bytes, pipe: Bytes, pending: Bytes, n: nat)
    requires n <= |pipe|
    ensures diff + pipe[..n] + pipe[n..] + pending == diff + pipe + pending
  {
    assert pipe == pipe[..n] + pipe[n..];
  }

  lemma FinishKeeps(diff: Bytes, pipe: Bytes, pending: Bytes)
    ensures diff + pipe + [] + pending == diff + pipe + pending
  {
  }

  /** Moving bytes between parent, pipe and child keeps their order. */
  lemma MoveOk<Db>(s: Server<Db>, e: Event<Db>)
    requires Ok(s) && Enabled(s, e) && (e.Send? || e.Read? || e.Finish?)
    ensures Ok(Next(s, e))
  {
    hide Printed, PrintAll, LogOk;
    var w := s.rewrite.value;
    match e {
      case Send(n) => SendKeeps(w.diff, w.pipe, w.pending, n);
      case Read(n) => ReadKeeps(w.diff, w.pipe, w.pending, n);
      case Finish => FinishKeeps(w.diff, w.pipe, w.pending);
    }
  }

  lemma DoneOk<Db>(s: Server<Db>, e: Event<Db>)
    requires Ok(s) && Enabled(s, e) && e.Done?
    ensures Ok(Next(s, e))
  {
    hide Printed, PrintAll;
    var w := s.rewrite.value;
    PrintAllConcat(w.snapshot, w.fed);
    PrintedConcat(w.snapshot, w.fed);
    FinishKeeps(w.diff, [], w.pending);
    assert w.diff + [] == w.diff;
    Associative(PrintAll(w.snapshot), w.diff, w.pending);
  }

  lemma NothingPrinted()
    ensures PrintAll([]) == [] && Printed([])
  {
  }

  lemma NextOk<Db>(s: Server<Db>, e: Event<Db>)
    requires Ok(s) && Enabled(s, e)
    ensures Ok(Next(s, e))
  {
    hide Printed, PrintAll, Emit;
    NothingPrinted();
    match e
    case Command(_, _, _, _) => CommandOk(s, e);
    case Send(_) => MoveOk(s, e);
    case Read(_) => MoveOk(s, e);
    case Finish => MoveOk(s, e);
    case Done(_) => DoneOk(s, e);
    case _ =>
  }

  // ---- every kept step keeps the meaning ----

  /** A command is kept by what is logged of it, and the child's snapshot replays, whenever it is loaded,
      to what stands for the dataset at the fork. Other steps change no dataset. */
  ghost predicate StepKept<Db(!new)>(
    exec: Exec<Db>, stands: Stands<Db>, empty: seq<Db>, s: Server<Db>, e: Event<Db>)
  {
    match e
    case Command(d, run, after, at) => d < |s.dbs| && Kept(exec, stands, s.dbs[d], run, after, at)
    case Fork(snapshot, at) => Follows(exec, stands, empty, snapshot, s.dbs, None, at)
    case _ => true
  }

  /** Log and rewrite, loaded at any time, replay to what stands for the live dataset. */
  ghost predicate Sound<Db>(exec: Exec<Db>, stands: Stands<Db>, empty: seq<Db>, s: Server<Db>) {
    && Follows(exec, stands, empty, s.cmds, s.dbs, s.selected, s.now)
    && (s.rewrite.Some? ==>
          Follows(exec, stands, empty, s.rewrite.value.snapshot + s.rewrite.value.fed, s.dbs, s.selected, s.now))
  }

  lemma CommandSound<Db(!new)>(exec: Exec<Db>, stands: Stands<Db>, empty: seq<Db>, s: Server<Db>, e: Event<Db>)
    requires Laws(stands) && Sound(exec, stands, empty, s) && Enabled(s, e) && e.Command?
    requires StepKept(exec, stands, empty, s, e)
    ensures Sound(exec, stands, empty, Next(s, e))
  {
    hide Laws, Follows, Kept, Emit, PrintAll, Printed, Pow10, IsSelect;
    KeptFollows(exec, stands, empty, s.cmds, s.dbs, s.selected, s.now, e.at, e.d, e.run, e.after);
    if s.rewrite.Some? {
      var w := s.rewrite.value;
      var out := Emit(s.selected, e.d, e.run);
      KeptFollows(exec, stands, empty, w.snapshot + w.fed, s.dbs, s.selected, s.now, e.at, e.d, e.run, e.after);
      assert w.snapshot + (w.fed + out) == w.snapshot + w.fed + out;
    }
  }

  lemma Forgets<Db(!new)>(
    exec: Exec<Db>, stands: Stands<Db>, empty: seq<Db>, cmds: seq<Argv>, dbs: seq<Db>, selected: Option<nat>,
    t: Clock, u: Clock)
    requires Laws(stands) && t <= u && Follows(exec, stands, empty, cmds, dbs, selected, t)
    ensures Follows(exec, stands, empty, cmds, dbs, None, u)
  {
    hide Replay, Laws;
    forall ts: seq<Clock> | |ts| == |cmds|
      ensures InStep(stands, Replay(exec, Start(empty), cmds, ts), dbs, None, u)
    {
      var r := Replay(exec, Start(empty), cmds, ts);
      assert InStep(stands, r, dbs, selected, t);
      Later(stands, r, dbs, None, t, u);
    }
  }

  lemma NextSound<Db(!new)>(exec: Exec<Db>, stands: Stands<Db>, empty: seq<Db>, s: Server<Db>, e: Event<Db>)
    requires Laws(stands) && Sound(exec, stands, empty, s) && Enabled(s, e) && StepKept(exec, stands, empty, s, e)
    ensures Sound(exec, stands, empty, Next(s, e))
  {
    hide Laws, Follows, Kept, Emit, PrintAll, Printed, Pow10;
    match e
    case Command(_, _, _, _) => CommandSound(exec, stands, empty, s, e);
    case Fork(snapshot, at) =>
      Forgets(exec, stands, empty, s.cmds, s.dbs, s.selected, s.now, at);
      assert snapshot + [] == snapshot;
    case Done(written) =>
      var w := s.rewrite.value;
      Forgets(exec, stands, empty, w.snapshot + w.fed, s.dbs, s.selected, s.now, s.now);
    case _ =>
  }

  // ---- runs ----

  ghost predicate Steps<Db>(s: Server<Db>, e: Event<Db>, s': Server<Db>) { Enabled(s, e) && s' == Next(s, e) }

  /** A run from an empty server. */
  ghost predicate Behaviour<Db>(empty: seq<Db>, ss: seq<Server<Db>>, es: seq<Event<Db>>) {
    && |ss| == |es| + 1 && ss[0] == Server(empty, 0, [], [], None, None)
    && forall i :: 0 <= i < |es| ==> Steps(ss[i], es[i], ss[i + 1])
  }

  lemma {:induction false} BehaviourOk<Db>(empty: seq<Db>, ss: seq<Server<Db>>, es: seq<Event<Db>>, i: nat)
    requires Behaviour(empty, ss, es) && i < |ss|
    ensures Ok(ss[i])
  {
    if i == 0 {
      NothingPrinted();
    } else {
      hide Ok, Enabled, Next;
      BehaviourOk(empty, ss, es, i - 1);
      assert Steps(ss[i - 1], es[i - 1], ss[i - 1 + 1]);
      NextOk(ss[i - 1], es[i - 1]);
    }
  }

  /** In every state of every run the log loads cleanly, as the commands that were fed or snapshot. */
  lemma LogLoads<Db>(empty: seq<Db>, ss: seq<Server<Db>>, es: seq<Event<Db>>, i: nat)
    requires Behaviour(empty, ss, es) && i < |ss|
    ensures Load(ss[i].log) == Loaded(ss[i].cmds, Clean, |ss[i].log|)
  {
    hide Behaviour, Load, Printable;
    BehaviourOk(empty, ss, es, i);
    RoundTrip(ss[i].cmds);
  }

  /** At every step of a rewrite, what the child has read, what is in the pipe and what the
      parent buffers are together exactly what was fed since the fork. */
  lemma NothingLost<Db>(empty: seq<Db>, ss: seq<Server<Db>>, es: seq<Event<Db>>, i: nat)
    requires Behaviour(empty, ss, es) && i < |ss| && ss[i].rewrite.Some?
    ensures var w := ss[i].rewrite.value; w.diff + w.pipe + w.pending == PrintAll(w.fed)
  {
    hide Behaviour;
    BehaviourOk(empty, ss, es, i);
  }

  /** A rewrite that succeeds leaves the snapshot followed by what was fed since. */
  lemma RewriteJoins<Db>(empty: seq<Db>, ss: seq<Server<Db>>, es: seq<Event<Db>>, i: nat)
    requires Behaviour(empty, ss, es) && i < |es|
    requires es[i] == Done(true) && ss[i].rewrite.Some? && ss[i].rewrite.value.phase == Finished
    ensures var w := ss[i].rewrite.value; ss[i + 1].log == PrintAll(w.snapshot + w.fed)
  {
    hide Printable, Enabled;
    BehaviourOk(empty, ss, es, i + 1);
  }

  /** The steps before state i are kept. */
  ghost predicate KeptUpTo<Db(!new)>(
    exec: Exec<Db>, stands: Stands<Db>, empty: seq<Db>, ss: seq<Server<Db>>, es: seq<Event<Db>>, i: nat)
    requires i <= |es| < |ss|
  {
    forall j :: 0 <= j < i ==> StepKept(exec, stands, empty, ss[j], es[j])
  }

  lemma {:induction false} BehaviourSound<Db(!new)>(
    exec: Exec<Db>, stands: Stands<Db>, empty: seq<Db>, ss: seq<Server<Db>>, es: seq<Event<Db>>, i: nat)
    requires Laws(stands) && Behaviour(empty, ss, es) && i < |ss| && KeptUpTo(exec, stands, empty, ss, es, i)
    ensures Sound(exec, stands, empty, ss[i])
  {
    if i == 0 {
      assert Replay(exec, Start(empty), [], []) == Start(empty);
    } else {
      hide Laws, Sound, Enabled, Next, StepKept;
      BehaviourSound(exec, stands, empty, ss, es, i - 1);
      assert Steps(ss[i - 1], es[i - 1], ss[i - 1 + 1]);
      NextSound(exec, stands, empty, ss[i - 1], es[i - 1]);
    }
  }

  /** In every state of every run whose steps are kept, with any number of rewrites before it or one under
      way, the log loads cleanly and replays, whenever that is, to what stands for the live dataset. */
  lemma LogReplays<Db(!new)>(
    exec: Exec<Db>, stands: Stands<Db>, empty: seq<Db>, ss: seq<Server<Db>>, es: seq<Event<Db>>, i: nat, ts: seq<Clock>)
    requires Laws(stands) && Behaviour(empty, ss, es) && i < |ss| && KeptUpTo(exec, stands, empty, ss, es, i)
    requires |ts| == |Load(ss[i].log).cmds|
    ensures Load(ss[i].log) == Loaded(ss[i].cmds, Clean, |ss[i].log|)
    ensures var r := Replay(exec, Start(empty), Load(ss[i].log).cmds, ts);
      |r.dbs| == |ss[i].dbs| && forall d :: 0 <= d < |r.dbs| ==> stands(r.dbs[d], ss[i].dbs[d], ss[i].now)
  {
    hide Behaviour, Load, Printable, Replay, KeptUpTo, Laws;
    LogLoads(empty, ss, es, i);
    BehaviourSound(exec, stands, empty, ss, es, i);
    assert InStep(stands, Replay(exec, Start(empty), ss[i].cmds, ts), ss[i].dbs, ss[i].selected, ss[i].now);
  }

  /** A rewrite that succeeds preserves the meaning of the log, if the steps so far are kept: the old and
      the new log, each loaded at its own time, replay to what stands for one and the same dataset. */
  lemma RewritePreserves<Db(!new)>(
    exec: Exec<Db>, stands: Stands<Db>, empty: seq<Db>, ss: seq<Server<Db>>, es: seq<Event<Db>>, i: nat,
    ts: seq<Clock>, us: seq<Clock>)
    requires Laws(stands) && Behaviour(empty, ss, es) && i < |es| && KeptUpTo(exec, stands, empty, ss, es, i)
    requires es[i] == Done(true) && ss[i].rewrite.Some? && ss[i].rewrite.value.phase == Finished
    requires |ts| == |Load(ss[i].log).cmds| && |us| == |Load(ss[i + 1].log).cmds|
    ensures var old_, new_ :=
        Replay(exec, Start(empty), Load(ss[i].log).cmds, ts), Replay(exec, Start(empty), Load(ss[i + 1].log).cmds, us);
      && |old_.dbs| == |new_.dbs| == |ss[i].dbs|
      && forall d :: 0 <= d < |ss[i].dbs| ==>
           stands(old_.dbs[d], ss[i].dbs[d], ss[i].now) && stands(new_.dbs[d], ss[i].dbs[d], ss[i].now)
  {
    hide Load, Printable, Replay, Laws, StepKept, PrintAll, Enabled;
    assert ss[i + 1].dbs == ss[i].dbs && ss[i + 1].now == ss[i].now by { DoneKeeps(ss[i]); }
    assert StepKept(exec, stands, empty, ss[i], es[i]) by { DoneIsKept(exec, stands, empty, ss[i]); }
    LogReplays(exec, stands, empty, ss, es, i, ts);
    LogReplays(exec, stands, empty, ss, es, i + 1, us);
  }

  lemma DoneKeeps<Db>(s: Server<Db>)
    requires s.rewrite.Some?
    ensures Next(s, Done(true)).dbs == s.dbs && Next(s, Done(true)).now == s.now
  {
  }

  lemma DoneIsKept<Db(!new)>(exec: Exec<Db>, stands: Stands<Db>, empty: seq<Db>, s: Server<Db>)
    ensures StepKept(exec, stands, empty, s, Done(true))
  {
  }
}
