/** The snapshot that a rewriting child writes, for databases of strings: what it replays to, and a rewrite
    after which the log no longer means what it meant. */
module AofSnapshot {
  import opened Wrappers
  import opened Memory
  import opened AofCodec
  import opened AofReplay
  import opened AofExpire
  import opened AofRewrite

  // ---- one database ----

  /** The child skips a key whose deadline is before its own reading of the clock, and -1 stands for none. */
  predicate Skipped(e: Entry, now: Clock) { e.when.Some? && e.when.value != -1 && e.when.value < now }

  predicate Timed(e: Entry) { e.when.Some? && e.when.value != -1 }

  function ExpiryOf(k: Bytes, e: Entry): seq<Argv> {
    if Timed(e) then [[PExpireAtWord(), k, LL(e.when.value)]] else []
  }

  function DumpKey(k: Bytes, e: Entry, now: Clock): seq<Argv> {
    if Skipped(e, now) then [] else [[SetWord(), k, e.value]] + ExpiryOf(k, e)
  }

  /** The commands for the keys in the order in which the iterator returns them. */
  function Dump(s: Store, keys: seq<Bytes>, now: Clock): seq<Argv>
    requires forall k :: k in keys ==> k in s
  {
    if keys == [] then []
    else Dump(s, keys[..|keys| - 1], now) + DumpKey(keys[|keys| - 1], s[keys[|keys| - 1]], now)
  }

  /** The iterator returns every key once. */
  ghost predicate Enumerates(s: Store, keys: seq<Bytes>) {
    (forall k :: k in keys <==> k in s) && forall i, j :: 0 <= i < j < |keys| ==> keys[i] != keys[j]
  }

  ghost predicate Deadlines(s: Store) { forall k :: k in s && s[k].when.Some? ==> InRange(s[k].when.value) }

  function KeySet(keys: seq<Bytes>): set<Bytes> { set k | k in keys }

  function Restored(e: Entry): Entry { if Timed(e) then e else e.(when := None) }

  /** What the dump of some keys replays to. */
  function Dumped(s: Store, keys: set<Bytes>, now: Clock): Store {
    map k | k in keys && k in s && !Skipped(s[k], now) :: Restored(s[k])
  }

  lemma DumpKeyLoads(x: Store, k: Bytes, e: Entry, now: Clock, ts: seq<Clock>)
    requires |ts| == |DumpKey(k, e, now)| && (e.when.Some? ==> InRange(e.when.value))
    ensures RunAll(LoadCommand, x, DumpKey(k, e, now), ts) == if Skipped(e, now) then x else x[k := Restored(e)]
  {
    hide RunEntry, LoadEntry, LL, LoadCommand, RunAll;
    RunIs(x, k, DumpKey(k, e, now), ts);
    var i := Get(x, k);
    PutPut(x, k, i, i);
    if Skipped(e, now) {
      assert RunEntry(i, [], ts) == i by { RunNone(i, ts); }
    } else {
      var rest := ExpiryOf(k, e);
      RunFirst(i, [SetWord(), k, e.value], rest, ts);
      LoadPlainSet(i, k, e.value, ts[0]);
      if Timed(e) {
        RunOne(Some(Entry(e.value, None)), rest[0], ts[1..]);
        LoadWhen(Entry(e.value, None), k, e.when.value, ts[1]);
      } else {
        RunNone(Some(Entry(e.value, None)), ts[1..]);
      }
    }
  }

  lemma RunNone(i: Option<Entry>, ts: seq<Clock>)
    requires ts == []
    ensures RunEntry(i, [], ts) == i
  {
  }

  lemma LoadWhen(e: Entry, k: Bytes, when: int, t: Clock)
    requires InRange(when)
    ensures LoadEntry(Some(e), [PExpireAtWord(), k, LL(when)], t) == Some(e.(when := Some(when)))
  {
    hide LL, Parse, Named, SetMeaning;
    ParseLL(when);
    NotOther([PExpireAtWord(), k, LL(when)]);
  }

  lemma {:induction false} DumpLoads(s: Store, keys: seq<Bytes>, now: Clock, ts: seq<Clock>)
    requires Deadlines(s) && (forall k :: k in keys ==> k in s)
    requires forall i, j :: 0 <= i < j < |keys| ==> keys[i] != keys[j]
    requires |ts| == |Dump(s, keys, now)|
    ensures RunAll(LoadCommand, map[], Dump(s, keys, now), ts) == Dumped(s, KeySet(keys), now)
    decreases |keys|
  {
    hide RunAll, LoadCommand, DumpKey, Skipped, Restored;
    if keys == [] {
      assert RunAll(LoadCommand, map[], [], ts) == map[] by { RunAllNone(map[], ts); }
    } else {
      var n := |keys| - 1;
      var k := keys[n];
      var a, b := Dump(s, keys[..n], now), DumpKey(k, s[k], now);
      DumpLoads(s, keys[..n], now, ts[..|a|]);
      RunConcat(LoadCommand, map[], a, b, ts);
      DumpKeyLoads(Dumped(s, KeySet(keys[..n]), now), k, s[k], now, ts[|a|..]);
      AllKeys(keys);
      DumpedMore(s, KeySet(keys[..n]), k, now);
    }
  }

  lemma RunAllNone(s: Store, ts: seq<Clock>)
    requires ts == []
    ensures RunAll(LoadCommand, s, [], ts) == s
  {
  }

  lemma AllKeys(keys: seq<Bytes>)
    requires keys != []
    ensures KeySet(keys) == KeySet(keys[..|keys| - 1]) + {keys[|keys| - 1]}
  {
    assert keys == keys[..|keys| - 1] + [keys[|keys| - 1]];
  }

  lemma DumpedMore(s: Store, keys: set<Bytes>, k: Bytes, now: Clock)
    requires k in s
    ensures Dumped(s, keys + {k}, now) ==
      if Skipped(s[k], now) then Dumped(s, keys, now) else Dumped(s, keys, now)[k := Restored(s[k])]
  {
  }

  /** The whole dump stands for the database exactly when no deadline is negative: a lookup takes a negative
      deadline for none, while the child takes -1 for none and any other for passed. */
  lemma DumpStands(s: Store, now: Clock)
    requires Deadlines(s)
    ensures StandsFor(Dumped(s, s.Keys, now), s, now) <==>
      forall k :: k in s && s[k].when.Some? ==> s[k].when.value >= 0
  {
    var x := Dumped(s, s.Keys, now);
    forall k
      ensures EntryStands(Get(x, k), Get(s, k), now) <==> (k in s && s[k].when.Some? ==> s[k].when.value >= 0)
    {
    }
  }

  // ---- all databases ----

  ghost predicate Orders(dbs: seq<Store>, orders: seq<seq<Bytes>>) {
    |orders| == |dbs| && forall j :: 0 <= j < |dbs| ==> Enumerates(dbs[j], orders[j])
  }

  ghost predicate Ready(dbs: seq<Store>, orders: seq<seq<Bytes>>) {
    Orders(dbs, orders) && forall j :: 0 <= j < |dbs| ==> Deadlines(dbs[j])
  }

  function DumpDb(dbs: seq<Store>, orders: seq<seq<Bytes>>, now: Clock, j: nat): seq<Argv>
    requires Orders(dbs, orders) && j < |dbs|
  {
    if dbs[j] == map[] then [] else [Select(j)] + Dump(dbs[j], orders[j], now)
  }

  /** The child's commands for the first n databases. */
  function Snapshot(dbs: seq<Store>, orders: seq<seq<Bytes>>, now: Clock, n: nat): seq<Argv>
    requires Orders(dbs, orders) && n <= |dbs|
  {
    if n == 0 then [] else Snapshot(dbs, orders, now, n - 1) + DumpDb(dbs, orders, now, n - 1)
  }

  function NoKeys(n: nat): seq<Store> { seq(n, _ => map[]) }

  /** Which databases the first n of the snapshot replay to. */
  function Restoring(dbs: seq<Store>, now: Clock, n: nat): seq<Store>
  {
    seq(|dbs|, j requires 0 <= j < |dbs| => if j < n then Dumped(dbs[j], dbs[j].Keys, now) else map[])
  }

  lemma {:induction false} DumpSelectsNothing(s: Store, keys: seq<Bytes>, now: Clock)
    requires forall k :: k in keys ==> k in s
    ensures forall c :: c in Dump(s, keys, now) ==> !IsSelect(c)
  {
    if keys != [] {
      DumpSelectsNothing(s, keys[..|keys| - 1], now);
    }
  }

  lemma DumpDbLoads(dbs: seq<Store>, orders: seq<seq<Bytes>>, now: Clock, j: nat, r: Replayed<Store>, ts: seq<Clock>)
    requires Ready(dbs, orders) && j < |dbs| && r.dbs == Restoring(dbs, now, j) && |ts| == |DumpDb(dbs, orders, now, j)|
    ensures Replay(LoadCommand, r, DumpDb(dbs, orders, now, j), ts).dbs == Restoring(dbs, now, j + 1)
  {
    hide RunAll, LoadCommand, Replay, Dump, Dumped, IsSelect;
    var s := dbs[j];
    if s == map[] {
      assert Replay(LoadCommand, r, [], ts) == r by { ReplayNone(r, ts); }
      assert Dumped(s, s.Keys, now) == map[] by {
        assert s.Keys == {};
        DumpedNothing(now);
      }
      assert Restoring(dbs, now, j) == Restoring(dbs, now, j + 1);
    } else {
      var cmds := Dump(s, orders[j], now);
      ReplayConcat(LoadCommand, r, [Select(j)], cmds, ts);
      SelectSwitches(LoadCommand, r, j, ts[..1]);
      DumpSelectsNothing(s, orders[j], now);
      ReplaySame(LoadCommand, r.(selected := j), cmds, ts[1..]);
      DumpLoads(s, orders[j], now, ts[1..]);
      assert KeySet(orders[j]) == s.Keys;
      assert Restoring(dbs, now, j)[j := Dumped(s, s.Keys, now)] == Restoring(dbs, now, j + 1);
    }
  }

  lemma ReplayNone(r: Replayed<Store>, ts: seq<Clock>)
    requires ts == []
    ensures Replay(LoadCommand, r, [], ts) == r
  {
  }

  lemma DumpedNothing(now: Clock)
    ensures Dumped(map[], {}, now) == map[]
  {
  }

  /** Whenever it is loaded, the snapshot replays to every database without its skipped keys. */
  lemma {:induction false} SnapshotLoads(dbs: seq<Store>, orders: seq<seq<Bytes>>, now: Clock, n: nat, ts: seq<Clock>)
    requires Ready(dbs, orders) && n <= |dbs| && |ts| == |Snapshot(dbs, orders, now, n)|
    ensures Replay(LoadCommand, Start(NoKeys(|dbs|)), Snapshot(dbs, orders, now, n), ts).dbs == Restoring(dbs, now, n)
  {
    hide Replay, LoadCommand, DumpDb, Dumped;
    if n == 0 {
      ReplayNone(Start(NoKeys(|dbs|)), ts);
    } else {
      var a, b := Snapshot(dbs, orders, now, n - 1), DumpDb(dbs, orders, now, n - 1);
      SnapshotLoads(dbs, orders, now, n - 1, ts[..|a|]);
      ReplayConcat(LoadCommand, Start(NoKeys(|dbs|)), a, b, ts);
      DumpDbLoads(dbs, orders, now, n - 1, Replay(LoadCommand, Start(NoKeys(|dbs|)), a, ts[..|a|]), ts[|a|..]);
    }
  }

  ghost predicate NoneNegative(dbs: seq<Store>) {
    forall j, k :: 0 <= j < |dbs| && k in dbs[j] && dbs[j][k].when.Some? ==> dbs[j][k].when.value >= 0
  }

  /** A fork is kept by what the child writes, up to keys that have expired, if and only if no deadline is
      negative. */
  lemma ForkKept(s: Server<Store>, orders: seq<seq<Bytes>>, at: Clock)
    requires Ready(s.dbs, orders)
    ensures StepKept(LoadCommand, StandsFor, NoKeys(|s.dbs|), s, Fork(Snapshot(s.dbs, orders, at, |s.dbs|), at))
      <==> NoneNegative(s.dbs)
  {
    hide Replay, LoadCommand, Snapshot, Dumped, StandsFor;
    var n := |s.dbs|;
    var cmds := Snapshot(s.dbs, orders, at, n);
    forall ts: seq<Clock> | |ts| == |cmds|
      ensures Replay(LoadCommand, Start(NoKeys(n)), cmds, ts).dbs == Restoring(s.dbs, at, n)
    {
      SnapshotLoads(s.dbs, orders, at, n, ts);
    }
    forall j | 0 <= j < n
      ensures StandsFor(Restoring(s.dbs, at, n)[j], s.dbs[j], at) <==>
        forall k :: k in s.dbs[j] && s.dbs[j][k].when.Some? ==> s.dbs[j][k].when.value >= 0
    {
      DumpStands(s.dbs[j], at);
    }
    var ts: seq<Clock> := seq(|cmds|, _ => 0);
    assert Replay(LoadCommand, Start(NoKeys(n)), cmds, ts).dbs == Restoring(s.dbs, at, n);
  }

  // ---- runs of the commands that set deadlines ----

  /** The event is a command that sets a deadline, with what it does live and what is logged of it. */
  ghost predicate IsCall(s: Server<Store>, e: Event<Store>, c: Call, r: Readings) {
    && e.Command? && e.d < |s.dbs| && ArityOk(c) && c.proc != Other && r.From(e.at)
    && var (after, fed) := Live(s.dbs[e.d], c, r);
       e.after == after && (forall f :: f in fed ==> ArityOk(f)) && e.run == TranslateAll(fed, r.log)
  }

  /** A command under the condition of `Keeps`, a fork of databases without a negative deadline, or a step
      that changes no dataset. */
  ghost predicate Faithful(s: Server<Store>, e: Event<Store>) {
    match e
    case Command(d, _, _, at) => exists c, r :: IsCall(s, e, c, r) && Keeps(Get(s.dbs[d], c.argv[1]), c, r, at)
    case Fork(snapshot, at) =>
      NoneNegative(s.dbs) && exists orders :: Ready(s.dbs, orders) && snapshot == Snapshot(s.dbs, orders, at, |s.dbs|)
    case _ => true
  }

  lemma FaithfulKept(s: Server<Store>, e: Event<Store>)
    requires Faithful(s, e)
    ensures StepKept(LoadCommand, StandsFor, NoKeys(|s.dbs|), s, e)
  {
    hide Live, TranslateAll, Kept, Follows, Snapshot, Keeps, NoneNegative, Named;
    match e
    case Command(d, run, after, at) =>
      var c, r :| IsCall(s, e, c, r) && Keeps(Get(s.dbs[d], c.argv[1]), c, r, at);
      TranslationKeeps(s.dbs[d], c, r, at);
    case Fork(snapshot, at) =>
      var orders :| Ready(s.dbs, orders) && snapshot == Snapshot(s.dbs, orders, at, |s.dbs|);
      ForkKept(s, orders, at);
    case _ =>
  }

  lemma {:induction false} SameCount(empty: seq<Store>, ss: seq<Server<Store>>, es: seq<Event<Store>>, i: nat)
    requires Behaviour(empty, ss, es) && i < |ss|
    ensures |ss[i].dbs| == |empty|
  {
    if i > 0 {
      SameCount(empty, ss, es, i - 1);
      assert Steps(ss[i - 1], es[i - 1], ss[i - 1 + 1]);
      NextCount(ss[i - 1], es[i - 1]);
    }
  }

  lemma NextCount(s: Server<Store>, e: Event<Store>)
    requires Enabled(s, e)
    ensures |Next(s, e).dbs| == |s.dbs|
  {
    hide PrintAll, Printed, Emit;
  }

  /** In every run of such steps, with any number of rewrites, the log loaded at any time gives back every
      key that has not expired, with its value and its deadline, and nothing that is not there. */
  lemma DeadlinesSurvive(n: nat, ss: seq<Server<Store>>, es: seq<Event<Store>>, i: nat, ts: seq<Clock>)
    requires Behaviour(NoKeys(n), ss, es) && i < |ss| && forall j :: 0 <= j < i ==> Faithful(ss[j], es[j])
    requires |ts| == |Load(ss[i].log).cmds|
    ensures var r := Replay(LoadCommand, Start(NoKeys(n)), Load(ss[i].log).cmds, ts);
      |r.dbs| == |ss[i].dbs| && forall d :: 0 <= d < |r.dbs| ==> StandsFor(r.dbs[d], ss[i].dbs[d], ss[i].now)
  {
    hide Behaviour, Load, Replay, StandsFor, Faithful, StepKept, LoadCommand;
    StandsLaws();
    Longer(NoKeys(n), ss, es);
    forall j | 0 <= j < i
      ensures StepKept(LoadCommand, StandsFor, NoKeys(n), ss[j], es[j])
    {
      SameCount(NoKeys(n), ss, es, j);
      FaithfulKept(ss[j], es[j]);
    }
    LogReplays(LoadCommand, StandsFor, NoKeys(n), ss, es, i, ts);
  }

  lemma Longer(empty: seq<Store>, ss: seq<Server<Store>>, es: seq<Event<Store>>)
    requires Behaviour(empty, ss, es)
    ensures |ss| == |es| + 1
  {
  }

  // ---- the child's file ----

  /** The fixed parts of the texts that the child writes. */
  function SetHead(): Bytes { [42, 51, 13, 10, 36, 51, 13, 10, 83, 69, 84, 13, 10] }

  function PExpireAtHead(): Bytes { [42, 51, 13, 10, 36, 57, 13, 10, 80, 69, 88, 80, 73, 82, 69, 65, 84, 13, 10] }

  lemma PrintTriple(a: Bytes, b: Bytes, c: Bytes)
    ensures Print([a, b, c]) == Line(STAR, 3) + PrintArg(a) + PrintArg(b) + PrintArg(c)
  {
    hide Dec, PrintArg, Line;
    var p: Argv := [a, b, c];
    var q: Argv := [b, c];
    var r: Argv := [c];
    assert p[1..] == q && q[1..] == r && r[1..] == [];
    assert PrintArgs(r) == PrintArg(c) + PrintArgs([]) && PrintArgs(q) == PrintArg(b) + PrintArgs(r);
    Regrouped(Line(STAR, 3), PrintArg(a), PrintArg(b), PrintArg(c));
  }

  lemma Regrouped(a: Bytes, b: Bytes, c: Bytes, d: Bytes)
    ensures a + (b + (c + (d + []))) == a + b + c + d
  {
  }

  lemma SetHeadIs()
    ensures Line(STAR, 3) + PrintArg(SetWord()) == SetHead()
  {
    hide Dec;
    OneDigit();
    assert |SetWord()| == 3;
  }

  lemma PExpireAtHeadIs()
    ensures Line(STAR, 3) + PrintArg(PExpireAtWord()) == PExpireAtHead()
  {
    hide Dec;
    OneDigit();
    assert |PExpireAtWord()| == 9;
  }

  lemma OneDigit()
    ensures Dec(3) == [51] && Dec(9) == [57]
  {
  }

  /** What is written for one key. */
  method WriteKey(file: Bytes, k: Bytes, e: Entry, now: Clock) returns (r: Bytes)
    ensures r == file + PrintAll(DumpKey(k, e, now))
  {
    hide PrintArg, PrintAll, Print, LL, Line, SetHead, PExpireAtHead, SetWord, PExpireAtWord;
    NothingPrinted();
    r := file;
    var expiretime := if e.when.Some? then e.when.value else -1;
    if expiretime != -1 && expiretime < now { return; }
    SetHeadIs();
    PExpireAtHeadIs();
    PrintTriple(SetWord(), k, e.value);
    PrintOne([SetWord(), k, e.value]);
    r := r + SetHead();
    r := r + PrintArg(k);
    r := r + PrintArg(e.value);
    assert r == file + Print([SetWord(), k, e.value]);
    if expiretime != -1 {
      var when := LL(expiretime);
      PrintTriple(PExpireAtWord(), k, when);
      PrintTwo([SetWord(), k, e.value], [PExpireAtWord(), k, when]);
      ghost var before := r;
      r := r + PExpireAtHead();
      r := r + PrintArg(k);
      r := r + PrintArg(when);
      assert r == before + Print([PExpireAtWord(), k, when]);
      assert DumpKey(k, e, now) == [[SetWord(), k, e.value], [PExpireAtWord(), k, when]];
    } else {
      assert DumpKey(k, e, now) == [[SetWord(), k, e.value]];
    }
  }

  /** The loop over the keys of a database that is not empty. */
  method WriteDb(before: Bytes, s: Store, keys: seq<Bytes>, j: nat, now: Clock) returns (file: Bytes)
    requires forall k :: k in keys ==> k in s
    ensures file == before + PrintAll([Select(j)] + Dump(s, keys, now))
  {
    hide PrintAll, Print, Select, SelectHead, CrLf, Dec, DumpKey, Dump;
    var seldb := Dec(j);
    file := before + (SelectHead() + Dec(|seldb|) + CrLf() + seldb + CrLf());
    SelectText(j);
    PrintOne(Select(j));
    ghost var head := [Select(j)];
    DumpNone(s, now);
    assert head + [] == head && keys[..0] == [];
    for i := 0 to |keys|
      invariant file == before + PrintAll(head + Dump(s, keys[..i], now))
    {
      ghost var done, more := head + Dump(s, keys[..i], now), DumpKey(keys[i], s[keys[i]], now);
      file := WriteKey(file, keys[i], s[keys[i]], now);
      PrintAllConcat(done, more);
      DumpNext(s, keys, now, i);
      assert head + (Dump(s, keys[..i], now) + more) == done + more;
      Associative(before, PrintAll(done), PrintAll(more));
    }
    assert keys[..|keys|] == keys;
  }

  lemma DumpNone(s: Store, now: Clock)
    ensures Dump(s, [], now) == []
  {
  }

  /** The loops of rewriteAppendOnlyFile over databases and keys; a write that fails ends the rewrite. */
  method WriteSnapshot(dbs: seq<Store>, orders: seq<seq<Bytes>>, now: Clock) returns (file: Bytes)
    requires Orders(dbs, orders)
    ensures file == PrintAll(Snapshot(dbs, orders, now, |dbs|))
  {
    hide PrintAll, Dump, Select;
    NothingPrinted();
    file := [];
    for j := 0 to |dbs|
      invariant file == PrintAll(Snapshot(dbs, orders, now, j))
    {
      PrintAllConcat(Snapshot(dbs, orders, now, j), DumpDb(dbs, orders, now, j));
      if |dbs[j]| == 0 {
        assert dbs[j] == map[];
        continue;
      }
      assert Enumerates(dbs[j], orders[j]);
      file := WriteDb(file, dbs[j], orders[j], j, now);
    }
  }

  lemma DumpNext(s: Store, keys: seq<Bytes>, now: Clock, i: nat)
    requires i < |keys| && forall k :: k in keys ==> k in s
    ensures Dump(s, keys[..i + 1], now) == Dump(s, keys[..i], now) + DumpKey(keys[i], s[keys[i]], now)
  {
    hide DumpKey;
    var ks := keys[..i + 1];
    assert ks[..|ks| - 1] == keys[..i] && ks[|ks| - 1] == keys[i];
  }

  /** A deadline that overflows: PSETEX with the greatest number leaves a key that every lookup finds and
      that the child skips. */
  lemma OverflowSkipped(s: Store, k: Bytes, v: Bytes, name: Bytes, r: Readings, now: Clock)
    requires k !in s && 0 < r.base
    ensures var c := Call(PSetEx, [name, k, LL(HALF - 1), v]);
      var s' := Live(s, c, r).0;
      k in s' && Skipped(s'[k], now) && forall t: Clock :: !Expired(Some(s'[k]), t)
  {
    hide LL, Parse, Wrap;
    var c := Call(PSetEx, [name, k, LL(HALF - 1), v]);
    ParseLL(HALF - 1);
    Overflow(r.base);
  }

  lemma Overflow(base: Clock)
    requires 0 < base
    ensures Wrap(HALF - 1 + base) == base - 1 - HALF
  {
  }

  // ---- a rewrite that changes what the log means ----

  function OneKey(k: Bytes, v: Bytes, when: int): Store { map[k := Entry(v, Some(when))] }

  /** SET key value PX milliseconds, and then a rewrite during which nothing else happens. */
  function Story(k: Bytes, v: Bytes, ms: nat, base: Clock, fork: Clock): seq<Event<Store>> {
    var s := OneKey(k, v, base + ms);
    [Command(0, [SetPx(k, v, ms).argv], s, base), Fork([Select(0)] + DumpKey(k, s[k], fork), fork),
     Ask, Ack(true), Finish, Done(true)]
  }

  function Begun(): Server<Store> { Server([map[]], 0, [], [], None, None) }

  lemma ShortPrintable(k: Bytes, v: Bytes, ms: nat, when: nat)
    requires |k| < Pow10(20) && |v| < Pow10(20) && ms < HALF && when < HALF
    ensures Printable(SetPx(k, v, ms).argv) && Printable([SetWord(), k, v])
    ensures Printable([PExpireAtWord(), k, LL(when)]) && Printable(Select(0))
  {
    hide Dec;
    TwentyDigits();
    DecLength(ms, 20);
    DecLength(when, 20);
    DecLength(0, 20);
  }

  lemma TwentyDigits()
    ensures Pow10(20) > HALF && HALF > 100
  {
    assert Pow10(10) == 10_000_000_000;
    assert Pow10(15) == 1_000_000_000_000_000;
    assert Pow10(20) == 100_000_000_000_000_000_000;
  }

  /** What the child writes for the one key. */
  lemma OneDump(k: Bytes, v: Bytes, when: nat, fork: Clock)
    requires fork <= when < HALF
    ensures var s := OneKey(k, v, when); var cmds := [Select(0)] + DumpKey(k, s[k], fork);
      && Orders([s], [[k]]) && Ready([s], [[k]]) && cmds == Snapshot([s], [[k]], fork, 1)
      && cmds == [Select(0), [SetWord(), k, v], [PExpireAtWord(), k, LL(when)]]
  {
    hide LL, Select;
    var s := OneKey(k, v, when);
    assert k in [k];
    assert Dump(s, [k], fork) == Dump(s, [], fork) + DumpKey(k, s[k], fork) by { assert [k][..0] == []; }
    assert Snapshot([s], [[k]], fork, 1) == Snapshot([s], [[k]], fork, 0) + DumpDb([s], [[k]], fork, 0);
    assert s != map[] by { assert k in s; }
  }

  /** A rewrite during which nothing else happens puts the snapshot in the place of the log. */
  lemma QuietRewrite<Db>(s: Server<Db>, snapshot: seq<Argv>, at: Clock) returns (ss: seq<Server<Db>>)
    requires s.rewrite.None? && s.now <= at && Printed(snapshot)
    ensures |ss| == 6 && ss[0] == s && ss[4].cmds == s.cmds && ss[5].cmds == snapshot
    ensures var es := [Fork(snapshot, at), Ask, Ack(true), Finish, Done(true)];
      forall i :: 0 <= i < 5 ==> Steps(ss[i], es[i], ss[i + 1])
    ensures ss[4].rewrite.Some? && ss[4].rewrite.value.phase == Finished
  {
    hide Printed, PrintAll;
    var s1 := Next(s, Fork(snapshot, at));
    var s2 := Next(s1, Ask);
    var s3 := Next(s2, Ack(true));
    var s4 := Next(s3, Finish);
    ss := [s, s1, s2, s3, s4, Next(s4, Done(true))];
    assert snapshot + [] == snapshot;
  }

  /** The state after the SET. */
  function AfterSet(k: Bytes, v: Bytes, ms: nat, base: Clock): Server<Store>
    requires base + ms < HALF
  {
    Next(Begun(), Command(0, [SetPx(k, v, ms).argv], OneKey(k, v, base + ms), base))
  }

  lemma AfterSetIs(k: Bytes, v: Bytes, ms: nat, base: Clock)
    requires base + ms < HALF && |k| < Pow10(20) && |v| < Pow10(20)
    ensures var s := AfterSet(k, v, ms, base);
      && Steps(Begun(), Command(0, [SetPx(k, v, ms).argv], OneKey(k, v, base + ms), base), s)
      && s.dbs == [OneKey(k, v, base + ms)] && s.now == base && s.rewrite.None?
      && s.cmds == [Select(0), SetPx(k, v, ms).argv]
  {
    hide Printable, PrintAll, Pow10, LL, Select;
    assert 0 < Pow10(20) by { TwentyDigits(); }
    ShortPrintable(k, v, ms, base + ms);
    assert !IsSelect(SetPx(k, v, ms).argv);
    assert [] + ([Select(0)] + [SetPx(k, v, ms).argv]) == [Select(0), SetPx(k, v, ms).argv];
  }

  lemma StoryRuns(k: Bytes, v: Bytes, ms: nat, base: Clock, fork: Clock) returns (ss: seq<Server<Store>>)
    requires 0 < ms && |k| < Pow10(20) && |v| < Pow10(20) && base <= fork <= base + ms < HALF
    ensures |ss| == 7 && Behaviour([map[]], ss, Story(k, v, ms, base, fork))
    ensures ss[1].dbs == [OneKey(k, v, base + ms)]
    ensures ss[5].cmds == [Select(0), SetPx(k, v, ms).argv]
    ensures ss[5].rewrite.Some? && ss[5].rewrite.value.phase == Finished
    ensures ss[6].cmds == [Select(0), [SetWord(), k, v], [PExpireAtWord(), k, LL(base + ms)]]
  {
    hide Printable, PrintAll, Pow10, LL, DumpKey, Select, Steps, SetPx, AfterSet;
    AfterSetIs(k, v, ms, base);
    OneDump(k, v, base + ms, fork);
    ShortPrintable(k, v, ms, base + ms);
    var cmds := [Select(0), [SetWord(), k, v], [PExpireAtWord(), k, LL(base + ms)]];
    var rest := QuietRewrite(AfterSet(k, v, ms, base), cmds, fork);
    ss := [Begun()] + rest;
    var es := Story(k, v, ms, base, fork);
    forall i | 0 <= i < |es|
      ensures Steps(ss[i], es[i], ss[i + 1])
    {
      if i > 0 {
        assert ss[i] == rest[i - 1] && ss[i + 1] == rest[i - 1 + 1];
        assert es[i] == [Fork(cmds, fork), Ask, Ack(true), Finish, Done(true)][i - 1];
      }
    }
  }

  /** What both logs replay to, whenever they are loaded. */
  lemma StoryReplays(k: Bytes, v: Bytes, ms: nat, when: nat, t: Clock, u: Clock, ts: seq<Clock>)
    requires 0 < ms && ms + u < HALF && when < HALF && |ts| == 3
    ensures var r := Start([map[]]);
      && Replay(LoadCommand, r, [Select(0), SetPx(k, v, ms).argv], [t, u]).dbs == [OneKey(k, v, u + ms)]
      && Replay(LoadCommand, r, [Select(0), [SetWord(), k, v], [PExpireAtWord(), k, LL(when)]], ts).dbs
         == [OneKey(k, v, when)]
  {
    hide Replay, RunAll, LoadCommand, Select, LL;
    var r: Replayed<Store> := Start([map[]]);
    var px := SetPx(k, v, ms).argv;
    var a, b := [SetWord(), k, v], [PExpireAtWord(), k, LL(when)];
    assert [Select(0), px] == [Select(0)] + [px] && [Select(0), a, b] == [Select(0)] + [a, b];
    ReplayConcat(LoadCommand, r, [Select(0)], [px], [t, u]);
    ReplayConcat(LoadCommand, r, [Select(0)], [a, b], ts);
    SelectSwitches(LoadCommand, r, 0, [t, u][..1]);
    SelectSwitches(LoadCommand, r, 0, ts[..1]);
    assert !IsSelect(px) && !IsSelect(a) && !IsSelect(b);
    ReplaySame(LoadCommand, r, [px], [t, u][1..]);
    ReplaySame(LoadCommand, r, [a, b], ts[1..]);
    assert [t, u][1..] == [u];
    PxLoads(k, v, ms, u);
    PairLoads(k, v, when, ts[1..]);
  }

  lemma PxLoads(k: Bytes, v: Bytes, ms: nat, u: Clock)
    requires 0 < ms && ms + u < HALF
    ensures RunAll(LoadCommand, map[], [SetPx(k, v, ms).argv], [u]) == OneKey(k, v, u + ms)
  {
    hide LoadEntry, RunEntry, RunAll, LL, Meaning, Wrap;
    var c := SetPx(k, v, ms);
    SetPxMeans(k, v, ms);
    RunIs(map[], k, [c.argv], [u]);
    RunOne(None, c.argv, [u]);
    LoadSet(None, c, u);
    InRangeStays(ms + u);
  }

  lemma PairLoads(k: Bytes, v: Bytes, when: nat, us: seq<Clock>)
    requires when < HALF && |us| == 2
    ensures RunAll(LoadCommand, map[], [[SetWord(), k, v], [PExpireAtWord(), k, LL(when)]], us) == OneKey(k, v, when)
  {
    hide LoadEntry, RunEntry, RunAll, LL;
    var a, b := [SetWord(), k, v], [PExpireAtWord(), k, LL(when)];
    RunIs(map[], k, [a, b], us);
    assert [a, b] == [a] + [b];
    RunFirst(None, a, [b], us);
    LoadPlainSet(None, k, v, us[0]);
    RunOne(Some(Entry(v, None)), b, us[1..]);
    LoadWhen(Entry(v, None), k, when, us[1]);
  }

  /** A run in which the command is what SET with PX does and logs, the child writes a faithful snapshot, and
      yet old and new log differ: loaded at time u, the old one gives the key ms more milliseconds from then,
      the new one the deadline it had. */
  lemma LogsDiffer(k: Bytes, v: Bytes, ms: nat, r: Readings, fork: Clock, t: Clock, u: Clock, ts: seq<Clock>)
    returns (ss: seq<Server<Store>>, es: seq<Event<Store>>)
    requires 0 < ms && |k| < Pow10(20) && |v| < Pow10(20)
    requires r.base <= fork <= r.base + ms < HALF && ms + u < HALF && |ts| == 3
    ensures Behaviour([map[]], ss, es) && |es| == 6 && es[5] == Done(true) && ss[5].rewrite.Some?
    ensures ss[5].rewrite.value.phase == Finished
    ensures ArityOk(SetPx(k, v, ms)) && (ss[1].dbs[0], [SetPx(k, v, ms)]) == Live(map[], SetPx(k, v, ms), r)
    ensures es[0] == Command(0, Translate(SetPx(k, v, ms), r.log), ss[1].dbs[0], r.base)
    ensures StepKept(LoadCommand, StandsFor, [map[]], ss[1], es[1])
    ensures Load(ss[5].log).cmds == ss[5].cmds && |ss[5].cmds| == 2
    ensures Load(ss[6].log).cmds == ss[6].cmds && |ss[6].cmds| == 3
    ensures Replay(LoadCommand, Start([map[]]), ss[5].cmds, [t, u]).dbs == [OneKey(k, v, u + ms)]
    ensures Replay(LoadCommand, Start([map[]]), ss[6].cmds, ts).dbs == [OneKey(k, v, r.base + ms)]
  {
    hide Behaviour, Load, Live, LL, Printable, PrintAll, Pow10, Replay, DumpKey, StepKept, RunAll, LoadCommand, Meaning;
    es := Story(k, v, ms, r.base, fork);
    ss := StoryRuns(k, v, ms, r.base, fork);
    LogLoads([map[]], ss, es, 5);
    LogLoads([map[]], ss, es, 6);
    SetIsLate(map[], k, v, ms, r, [r.base]);
    StoryReplays(k, v, ms, r.base + ms, t, u, ts);
    OneDump(k, v, r.base + ms, fork);
    assert NoKeys(1) == [map[]];
    ForkKept(ss[1], [[k]], fork);
  }
}
