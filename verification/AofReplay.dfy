/** Replaying a log at some later time. Every command of it runs at its own reading of the clock, and
    what a command does may depend on that reading. */
module AofReplay {
  import opened Wrappers
  import opened Memory
  import opened AofCodec

  const HALF: int := 0x8000_0000_0000_0000

  /** A reading of mstime. */
  type Clock = t: int | 0 <= t < HALF

  /** What the loader's run of a command does to the database it is in. */
  type Exec<!Db> = (Db, Argv, Clock) -> Db

  /** Whether a replayed database may stand for a live one at some time. */
  type Stands<!Db> = (Db, Db, Clock) -> bool

  /** A database stands for itself, and goes on standing for what it stands for. */
  ghost predicate Laws<Db(!new)>(stands: Stands<Db>) {
    && (forall x, t :: stands(x, x, t))
    && (forall x, y, t, u :: t <= u && stands(x, y, t) ==> stands(x, y, u))
  }

  function RunAll<Db>(exec: Exec<Db>, db: Db, cmds: seq<Argv>, ts: seq<Clock>): Db
    requires |ts| == |cmds|
    decreases |cmds|
  {
    if cmds == [] then db else RunAll(exec, exec(db, cmds[0], ts[0]), cmds[1..], ts[1..])
  }

  lemma {:induction false} RunConcat<Db>(exec: Exec<Db>, db: Db, a: seq<Argv>, b: seq<Argv>, ts: seq<Clock>)
    requires |ts| == |a| + |b|
    ensures RunAll(exec, db, a + b, ts) == RunAll(exec, RunAll(exec, db, a, ts[..|a|]), b, ts[|a|..])
    decreases |a|
  {
    if a == [] {
      assert a + b == b && ts[0..] == ts;
    } else {
      assert (a + b)[1..] == a[1..] + b && ts[..|a|][1..] == ts[1..][..|a| - 1] && ts[|a|..] == ts[1..][|a| - 1..];
      RunConcat(exec, exec(db, a[0], ts[0]), a[1..], b, ts[1..]);
    }
  }

  // ---- all databases ----

  datatype Replayed<Db> = Replayed(dbs: seq<Db>, selected: nat)

  /** The word SELECT. */
  function SelectWord(): Bytes { [83, 69, 76, 69, 67, 84] }

  function Select(d: nat): Argv { [SelectWord(), Dec(d)] }

  predicate IsSelect(argv: Argv) { |argv| == 2 && argv[0] == SelectWord() }

  /** Running one command of the file: SELECT changes the database that the next ones go to. */
  function Step<Db>(exec: Exec<Db>, r: Replayed<Db>, argv: Argv, t: Clock): Replayed<Db> {
    if IsSelect(argv) then r.(selected := if 0 <= Atoi(argv[1]) < |r.dbs| then Atoi(argv[1]) else r.selected)
    else if r.selected < |r.dbs| then r.(dbs := r.dbs[r.selected := exec(r.dbs[r.selected], argv, t)]) else r
  }

  function Replay<Db>(exec: Exec<Db>, r: Replayed<Db>, cmds: seq<Argv>, ts: seq<Clock>): Replayed<Db>
    requires |ts| == |cmds|
    decreases |cmds|
  {
    if cmds == [] then r else Replay(exec, Step(exec, r, cmds[0], ts[0]), cmds[1..], ts[1..])
  }

  function Start<Db>(dbs: seq<Db>): Replayed<Db> { Replayed(dbs, 0) }

  lemma {:induction false} ReplayConcat<Db>(exec: Exec<Db>, r: Replayed<Db>, a: seq<Argv>, b: seq<Argv>, ts: seq<Clock>)
    requires |ts| == |a| + |b|
    ensures Replay(exec, r, a + b, ts) == Replay(exec, Replay(exec, r, a, ts[..|a|]), b, ts[|a|..])
    decreases |a|
  {
    hide Step;
    if a == [] {
      assert a + b == b && ts[0..] == ts;
    } else {
      assert (a + b)[1..] == a[1..] + b && ts[..|a|][1..] == ts[1..][..|a| - 1] && ts[|a|..] == ts[1..][|a| - 1..];
      ReplayConcat(exec, Step(exec, r, a[0], ts[0]), a[1..], b, ts[1..]);
    }
  }

  /** Commands other than SELECT all run in the selected database. */
  lemma {:induction false} ReplaySame<Db>(exec: Exec<Db>, r: Replayed<Db>, cmds: seq<Argv>, ts: seq<Clock>)
    requires |ts| == |cmds| && r.selected < |r.dbs| && forall c :: c in cmds ==> !IsSelect(c)
    ensures Replay(exec, r, cmds, ts) ==
      r.(dbs := r.dbs[r.selected := RunAll(exec, r.dbs[r.selected], cmds, ts)])
    decreases |cmds|
  {
    hide IsSelect;
    var d := r.selected;
    if cmds == [] {
      assert r.dbs[d := r.dbs[d]] == r.dbs;
    } else {
      var db := exec(r.dbs[d], cmds[0], ts[0]);
      assert Step(exec, r, cmds[0], ts[0]) == r.(dbs := r.dbs[d := db]);
      ReplaySame(exec, r.(dbs := r.dbs[d := db]), cmds[1..], ts[1..]);
      var end := RunAll(exec, db, cmds[1..], ts[1..]);
      assert r.dbs[d := db][d := end] == r.dbs[d := end];
    }
  }

  lemma SelectSwitches<Db>(exec: Exec<Db>, r: Replayed<Db>, d: nat, ts: seq<Clock>)
    requires d < |r.dbs| && |ts| == 1
    ensures Replay(exec, r, [Select(d)], ts) == r.(selected := d)
  {
    hide Atoi, Dec;
    AtoiDec(d, []);
    assert Dec(d) + [] == Dec(d);
    assert [Select(d)][1..] == [];
    assert Replay(exec, r, [Select(d)], ts) == Replay(exec, Step(exec, r, Select(d), ts[0]), [], ts[1..]);
  }

  // ---- what is fed ----

  /** What feedAppendOnlyFile emits for commands run in database d. */
  function Emit(selected: Option<nat>, d: nat, cmds: seq<Argv>): seq<Argv> {
    (if selected != Some(d) then [Select(d)] else []) + cmds
  }

  /** Replaying what was emitted runs the commands in the database they belong to, and leaves the
      others alone. */
  lemma EmitReplays<Db>(exec: Exec<Db>, r: Replayed<Db>, selected: Option<nat>, d: nat, cmds: seq<Argv>, ts: seq<Clock>)
    requires |ts| == |Emit(selected, d, cmds)| && d < |r.dbs| && (selected.Some? ==> r.selected == selected.value)
    requires forall c :: c in cmds ==> !IsSelect(c)
    ensures |ts| >= |cmds|
    ensures Replay(exec, r, Emit(selected, d, cmds), ts) ==
      Replayed(r.dbs[d := RunAll(exec, r.dbs[d], cmds, ts[|ts| - |cmds|..])], d)
  {
    hide RunAll, Replay, IsSelect, Select;
    if selected == Some(d) {
      assert Emit(selected, d, cmds) == cmds && ts[0..] == ts;
      ReplaySame(exec, r, cmds, ts);
    } else {
      ReplayConcat(exec, r, [Select(d)], cmds, ts);
      SelectSwitches(exec, r, d, ts[..1]);
      ReplaySame(exec, r.(selected := d), cmds, ts[1..]);
    }
  }

  // ---- standing for the live dataset ----

  /** Every replayed database stands for the live one, and the last database the log switched to is
      the one the server remembers, if it does. */
  ghost predicate InStep<Db>(stands: Stands<Db>, r: Replayed<Db>, dbs: seq<Db>, selected: Option<nat>, t: Clock) {
    && |r.dbs| == |dbs| && (forall d :: 0 <= d < |dbs| ==> stands(r.dbs[d], dbs[d], t))
    && (selected.Some? ==> r.selected == selected.value < |dbs|)
  }

  /** Whenever the commands are loaded, the replay is in step. */
  ghost predicate Follows<Db>(
    exec: Exec<Db>, stands: Stands<Db>, empty: seq<Db>, cmds: seq<Argv>, dbs: seq<Db>, selected: Option<nat>, t: Clock)
  {
    forall ts: seq<Clock> :: |ts| == |cmds| ==> InStep(stands, Replay(exec, Start(empty), cmds, ts), dbs, selected, t)
  }

  /** The live step from db to after is kept by logging `run`: from any database that stands for db, and
      whenever it is loaded, `run` leads to one that stands for after. */
  ghost predicate Kept<Db(!new)>(exec: Exec<Db>, stands: Stands<Db>, db: Db, run: seq<Argv>, after: Db, t: Clock) {
    forall x: Db, ts: seq<Clock> :: |ts| == |run| && stands(x, db, t) ==> stands(RunAll(exec, x, run, ts), after, t)
  }

  lemma Later<Db(!new)>(stands: Stands<Db>, r: Replayed<Db>, dbs: seq<Db>, selected: Option<nat>, t: Clock, u: Clock)
    requires Laws(stands) && t <= u && InStep(stands, r, dbs, selected, t)
    ensures InStep(stands, r, dbs, selected, u)
  {
  }

  lemma KeptInStep<Db(!new)>(
    exec: Exec<Db>, stands: Stands<Db>, r: Replayed<Db>, dbs: seq<Db>, selected: Option<nat>, t: Clock,
    d: nat, run: seq<Argv>, after: Db, ts: seq<Clock>)
    requires InStep(stands, r, dbs, selected, t) && d < |dbs| && Kept(exec, stands, dbs[d], run, after, t)
    requires |ts| == |Emit(selected, d, run)| && forall c :: c in run ==> !IsSelect(c)
    ensures InStep(stands, Replay(exec, r, Emit(selected, d, run), ts), dbs[d := after], Some(d), t)
  {
    hide Replay, RunAll, IsSelect;
    EmitReplays(exec, r, selected, d, run, ts);
    assert stands(r.dbs[d], dbs[d], t);
  }

  /** A log that follows the live dataset goes on following it over a kept step. */
  lemma KeptFollows<Db(!new)>(
    exec: Exec<Db>, stands: Stands<Db>, empty: seq<Db>, cmds: seq<Argv>, dbs: seq<Db>, selected: Option<nat>, t: Clock,
    u: Clock, d: nat, run: seq<Argv>, after: Db)
    requires Laws(stands) && Follows(exec, stands, empty, cmds, dbs, selected, t) && t <= u
    requires d < |dbs| && Kept(exec, stands, dbs[d], run, after, u) && forall c :: c in run ==> !IsSelect(c)
    ensures Follows(exec, stands, empty, cmds + Emit(selected, d, run), dbs[d := after], Some(d), u)
  {
    hide Replay, Emit, InStep, Kept, Laws, IsSelect, Start;
    var out := Emit(selected, d, run);
    forall ts: seq<Clock> | |ts| == |cmds + out|
      ensures InStep(stands, Replay(exec, Start(empty), cmds + out, ts), dbs[d := after], Some(d), u)
    {
      ReplayConcat(exec, Start(empty), cmds, out, ts);
      var r := Replay(exec, Start(empty), cmds, ts[..|cmds|]);
      Later(stands, r, dbs, selected, t, u);
      KeptInStep(exec, stands, r, dbs, selected, u, d, run, after, ts[|cmds|..]);
    }
  }
}
