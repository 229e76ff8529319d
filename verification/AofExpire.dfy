/** Commands that set a deadline, live, in the log and when the log is loaded. EXPIRE, PEXPIRE, EXPIREAT,
    SETEX and PSETEX are logged with an absolute time; SET with EX or PX is logged as it is. */
module AofExpire {
  import opened Wrappers
  import opened Memory
  import opened AofCodec
  import opened AofReplay

  // ---- 64-bit numbers ----

  predicate InRange(v: int) { -HALF <= v < HALF }

  /** The value of a 64-bit sum or product, which wraps around. */
  function Wrap(v: int): (r: int)
    ensures InRange(r)
  {
    (v + HALF) % (2 * HALF) - HALF
  }

  const MINUS: Byte := 45

  /** ll2string. */
  function LL(v: int): Bytes { if v < 0 then [MINUS] + Dec(-v) else Dec(v) }

  /** string2ll accepts exactly what ll2string prints. */
  function Parse(a: Bytes): Option<int> {
    if InRange(Atoi(a)) && LL(Atoi(a)) == a then Some(Atoi(a)) else None
  }

  lemma AtoiLL(v: int)
    ensures Atoi(LL(v)) == v
  {
    hide Dec;
    if v < 0 {
      var d := Dec(-v);
      DecDigits(-v);
      LeadOf(d, []);
      assert d + [] == d;
      var s := [MINUS] + d;
      assert s[1..] == d;
      assert SkipSpace(s) == s;
    } else {
      AtoiDec(v, []);
      assert Dec(v) + [] == Dec(v);
    }
  }

  lemma ParseLL(v: int)
    requires InRange(v)
    ensures Parse(LL(v)) == Some(v)
  {
    hide LL, Atoi;
    AtoiLL(v);
  }

  // ---- commands ----

  datatype Proc = Expire | PExpire | ExpireAt | SetEx | PSetEx | Set | Other

  datatype Call = Call(proc: Proc, argv: Argv)

  predicate Sets(p: Proc) { p == SetEx || p == PSetEx || p == Set }

  predicate Seconds(p: Proc) { p == Expire || p == ExpireAt || p == SetEx }

  predicate Relative(p: Proc) { p != ExpireAt && p != Other }

  function DelWord(): Bytes { [68, 69, 76] }

  function SetWord(): Bytes { [83, 69, 84] }

  function PExpireAtWord(): Bytes { [80, 69, 88, 80, 73, 82, 69, 65, 84] }

  function Lower(b: Byte): Byte { if 65 <= b <= 90 then b + 32 else b }

  /** Names of commands are found whatever their case. */
  predicate Named(a: Bytes, word: Bytes) {
    |a| == |word| && forall i :: 0 <= i < |a| ==> Lower(a[i]) == Lower(word[i])
  }

  /** The arity that the command table demands; SET takes options. */
  predicate ArityOk(c: Call) {
    match c.proc
    case Set => |c.argv| >= 3 && Named(c.argv[0], SetWord())
    case SetEx => |c.argv| == 4
    case PSetEx => |c.argv| == 4
    case Other => true
    case _ => |c.argv| == 3
  }

  /** An option of two letters; the text ends at the first zero byte. */
  predicate IsOption(a: Bytes, x: Byte, y: Byte) {
    |a| >= 2 && Lower(a[0]) == x && Lower(a[1]) == y && (|a| == 2 || a[2] == 0)
  }

  const E: Byte := 101
  const N: Byte := 110
  const P: Byte := 112
  const X: Byte := 120

  datatype Options = Options(nx: bool, xx: bool, ex: bool, px: bool, arg: Option<Bytes>)

  const PLAIN: Options := Options(false, false, false, false, None)

  /** The options of SET from argument j on, or none on a syntax error. */
  function OptionsFrom(argv: Argv, j: nat, o: Options): Option<Options>
    decreases |argv| - j
  {
    if j >= |argv| then Some(o)
    else if IsOption(argv[j], N, X) && !o.xx then OptionsFrom(argv, j + 1, o.(nx := true))
    else if IsOption(argv[j], X, X) && !o.nx then OptionsFrom(argv, j + 1, o.(xx := true))
    else if IsOption(argv[j], E, X) && !o.px && j + 1 < |argv| then
      OptionsFrom(argv, j + 2, o.(ex := true, arg := Some(argv[j + 1])))
    else if IsOption(argv[j], P, X) && !o.ex && j + 1 < |argv| then
      OptionsFrom(argv, j + 2, o.(px := true, arg := Some(argv[j + 1])))
    else None
  }

  /** The loop of setCommand. */
  method SetOptions(argv: Argv) returns (r: Option<Options>)
    requires |argv| >= 3
    ensures r == OptionsFrom(argv, 3, PLAIN)
    ensures r.Some? ==> !(r.value.nx && r.value.xx) && !(r.value.ex && r.value.px)
    ensures r.Some? ==> (r.value.arg.Some? <==> r.value.ex || r.value.px)
  {
    hide IsOption;
    var j, o := 3, PLAIN;
    while j < |argv|
      invariant 3 <= j && OptionsFrom(argv, j, o) == OptionsFrom(argv, 3, PLAIN)
      invariant !(o.nx && o.xx) && !(o.ex && o.px) && (o.arg.Some? <==> o.ex || o.px)
      decreases |argv| - j
    {
      var a, next := argv[j], j + 1 < |argv|;
      if IsOption(a, N, X) && !o.xx {
        o := o.(nx := true);
      } else if IsOption(a, X, X) && !o.nx {
        o := o.(xx := true);
      } else if IsOption(a, E, X) && !o.px && next {
        o := o.(ex := true, arg := Some(argv[j + 1]));
        j := j + 1;
      } else if IsOption(a, P, X) && !o.ex && next {
        o := o.(px := true, arg := Some(argv[j + 1]));
        j := j + 1;
      } else {
        return None;
      }
      j := j + 1;
    }
    return Some(o);
  }

  // ---- what a command means ----

  /** A time to live in milliseconds, none, or one that is refused. */
  datatype Ttl = NoTtl | BadTtl | Ttl(ms: int)

  datatype Setting = Setting(value: Bytes, nx: bool, xx: bool, ttl: Ttl) | SyntaxError

  function Millis(seconds: bool, v: int): int { if seconds then Wrap(v * 1000) else v }

  /** The time to live that setGenericCommand takes from its argument. */
  function TtlOf(arg: Option<Bytes>, seconds: bool): Ttl {
    if arg.None? then NoTtl
    else if Parse(arg.value).None? || Parse(arg.value).value <= 0 then BadTtl
    else Ttl(Millis(seconds, Parse(arg.value).value))
  }

  /** The arguments with which SET calls setGenericCommand. */
  function SetMeaning(argv: Argv): Setting
    requires |argv| >= 3
  {
    var o := OptionsFrom(argv, 3, PLAIN);
    if o.None? then SyntaxError
    else Setting(argv[2], o.value.nx, o.value.xx, TtlOf(o.value.arg, o.value.ex))
  }

  function Meaning(c: Call): Setting
    requires ArityOk(c) && Sets(c.proc)
  {
    if c.proc == Set then SetMeaning(c.argv)
    else Setting(c.argv[3], false, false, TtlOf(Some(c.argv[2]), Seconds(c.proc)))
  }

  /** The time, in milliseconds, that an argument means when the clock shows `now`. */
  function Deadline(p: Proc, arg: int, now: Clock): (when: int) {
    if Relative(p) then Wrap(Millis(Seconds(p), arg) + now) else Millis(Seconds(p), arg)
  }

  // ---- one key ----

  /** A key's value and deadline. */
  datatype Entry = Entry(value: Bytes, when: Option<int>)

  /** expireIfNeeded treats a negative deadline as none. */
  predicate Expired(i: Option<Entry>, t: Clock) {
    i.Some? && i.value.when.Some? && 0 <= i.value.when.value < t
  }

  function LookUp(i: Option<Entry>, t: Clock): Option<Entry> { if Expired(i, t) then None else i }

  function DelCall(k: Bytes): Call { Call(Other, [DelWord(), k]) }

  /** What a lookup feeds to the log. */
  function LookUpFeeds(i: Option<Entry>, k: Bytes, t: Clock): seq<Call> { if Expired(i, t) then [DelCall(k)] else [] }

  /** Whether NX or XX stops a setting. */
  predicate Stopped(a: Setting, i: Option<Entry>)
    requires a.Setting?
  {
    (a.nx && i.Some?) || (a.xx && i.None?)
  }

  function Stored(a: Setting, now: Clock): Entry
    requires a.Setting?
  {
    Entry(a.value, if a.ttl.Ttl? then Some(Wrap(a.ttl.ms + now)) else None)
  }

  /** The readings of the clock that a command makes: for its deadline, at its first and second lookup of
      the key, for the test whether a deadline has passed, and when it is logged. */
  datatype Readings = Readings(base: Clock, look: Clock, again: Clock, test: Clock, log: Clock) {
    predicate From(t: Clock) { t <= base && t <= look && t <= again && t <= test && t <= log }
  }

  /** What the key held when a setting's second lookup began. */
  function Before(a: Setting, i: Option<Entry>, r: Readings): Option<Entry>
    requires a.Setting?
  {
    if a.nx || a.xx then LookUp(i, r.look) else i
  }

  predicate Accepted(a: Setting, i: Option<Entry>, r: Readings) {
    a.Setting? && a.ttl != BadTtl && !Stopped(a, Before(a, i, r))
  }

  /** setGenericCommand on a master: the key afterwards, and the calls that are fed to the log. */
  function LiveSet(i: Option<Entry>, c: Call, r: Readings): (Option<Entry>, seq<Call>)
    requires ArityOk(c) && Sets(c.proc)
  {
    var k, a := c.argv[1], Meaning(c);
    if a.SyntaxError? || a.ttl == BadTtl then (i, [])
    else
      var fed := if a.nx || a.xx then LookUpFeeds(i, k, r.look) else [];
      var b := Before(a, i, r);
      if Stopped(a, b) then (b, fed)
      else (Some(Stored(a, r.base)), fed + LookUpFeeds(b, k, r.again) + [c])
  }

  /** expireGenericCommand on a master. */
  function LiveExpire(i: Option<Entry>, c: Call, r: Readings): (Option<Entry>, seq<Call>)
    requires ArityOk(c) && c.proc != Other && !Sets(c.proc)
  {
    var k, arg := c.argv[1], Parse(c.argv[2]);
    if arg.None? then (i, [])
    else
      var when := Deadline(c.proc, arg.value, r.base);
      var b, fed := LookUp(i, r.look), LookUpFeeds(i, k, r.look);
      if b.None? then (b, fed)
      else if when <= r.test then (None, fed + [DelCall(k)])
      else (Some(b.value.(when := Some(when))), fed + [c])
  }

  function LiveEntry(i: Option<Entry>, c: Call, r: Readings): (Option<Entry>, seq<Call>)
    requires ArityOk(c) && c.proc != Other
  {
    if Sets(c.proc) then LiveSet(i, c, r) else LiveExpire(i, c, r)
  }

  // ---- the log ----

  function ExpireAtArgv(p: Proc, key: Bytes, seconds: Bytes, now: Clock): Argv {
    [PExpireAtWord(), key, LL(Deadline(p, Atoi(seconds), now))]
  }

  /** What is logged of a call. */
  function Translate(c: Call, now: Clock): seq<Argv>
    requires ArityOk(c)
  {
    match c.proc
    case Other => [c.argv]
    case Set => [c.argv]
    case SetEx => [[SetWord(), c.argv[1], c.argv[3]], ExpireAtArgv(c.proc, c.argv[1], c.argv[2], now)]
    case PSetEx => [[SetWord(), c.argv[1], c.argv[3]], ExpireAtArgv(c.proc, c.argv[1], c.argv[2], now)]
    case _ => [ExpireAtArgv(c.proc, c.argv[1], c.argv[2], now)]
  }

  function TranslateAll(cs: seq<Call>, now: Clock): seq<Argv>
    requires forall c :: c in cs ==> ArityOk(c)
  {
    if cs == [] then [] else TranslateAll(cs[..|cs| - 1], now) + Translate(cs[|cs| - 1], now)
  }

  lemma InRangeStays(v: int)
    ensures InRange(v) ==> Wrap(v) == v
  {
  }

  /** catAppendOnlyExpireAtCommand. */
  method CatExpireAtCommand(buf: Bytes, p: Proc, key: Bytes, seconds: Bytes, now: Clock) returns (r: Bytes)
    requires p != Other && p != Set
    ensures r == buf + Print(ExpireAtArgv(p, key, seconds, now))
    ensures var a := Atoi(seconds);
      && (p == Expire || p == SetEx ==> InRange(1000 * a) && InRange(1000 * a + now) ==>
            r == buf + Print([PExpireAtWord(), key, LL(1000 * a + now)]))
      && (p == PExpire || p == PSetEx ==> InRange(a + now) ==> r == buf + Print([PExpireAtWord(), key, LL(a + now)]))
      && (p == ExpireAt ==> InRange(1000 * a) ==> r == buf + Print([PExpireAtWord(), key, LL(1000 * a)]))
  {
    hide Print, LL, Atoi, Wrap;
    var when := Atoi(seconds);
    InRangeStays(1000 * when);
    InRangeStays(1000 * when + now);
    InRangeStays(when + now);
    if p == Expire || p == SetEx || p == ExpireAt { when := Wrap(when * 1000); }
    if p == Expire || p == PExpire || p == SetEx || p == PSetEx { when := Wrap(when + now); }
    r := CatGenericCommand(buf, [PExpireAtWord(), key, LL(when)]);
  }

  // ---- loading ----

  predicate IsDel(argv: Argv) { |argv| == 2 && Named(argv[0], DelWord()) }

  predicate IsSet(argv: Argv) { |argv| >= 3 && Named(argv[0], SetWord()) }

  predicate IsPExpireAt(argv: Argv) { |argv| == 3 && Named(argv[0], PExpireAtWord()) }

  /** A command as the loader runs it when the clock shows t: nothing expires, and a deadline in the past is
      kept. */
  function LoadEntry(i: Option<Entry>, argv: Argv, t: Clock): Option<Entry> {
    if IsDel(argv) then None
    else if IsSet(argv) then
      var a := SetMeaning(argv);
      if a.SyntaxError? || a.ttl == BadTtl || Stopped(a, i) then i else Some(Stored(a, t))
    else if IsPExpireAt(argv) && Parse(argv[2]).Some? && i.Some? then
      Some(i.value.(when := Some(Parse(argv[2]).value)))
    else i
  }

  // ---- stores ----

  type Store = map<Bytes, Entry>

  function Get(s: Store, k: Bytes): Option<Entry> { if k in s then Some(s[k]) else None }

  function Put(s: Store, k: Bytes, i: Option<Entry>): Store { if i.Some? then s[k := i.value] else s - {k} }

  function Live(s: Store, c: Call, r: Readings): (Store, seq<Call>)
    requires ArityOk(c) && c.proc != Other
  {
    var (i, fed) := LiveEntry(Get(s, c.argv[1]), c, r);
    (Put(s, c.argv[1], i), fed)
  }

  function LoadCommand(s: Store, argv: Argv, t: Clock): Store {
    if |argv| >= 2 then Put(s, argv[1], LoadEntry(Get(s, argv[1]), argv, t)) else s
  }

  predicate EntryStands(x: Option<Entry>, i: Option<Entry>, t: Clock) { x == i || (x.None? && Expired(i, t)) }

  /** A replayed store stands for a live one if it is that store, less some keys that have expired. */
  ghost predicate StandsFor(x: Store, s: Store, t: Clock) { forall k :: EntryStands(Get(x, k), Get(s, k), t) }

  lemma StandsLaws()
    ensures Laws(StandsFor)
  {
  }

  // ---- runs of commands on one key ----

  predicate Keyed(cmds: seq<Argv>, k: Bytes) { forall i :: 0 <= i < |cmds| ==> |cmds[i]| >= 2 && cmds[i][1] == k }

  function RunEntry(i: Option<Entry>, cmds: seq<Argv>, ts: seq<Clock>): Option<Entry>
    requires |ts| == |cmds|
    decreases |cmds|
  {
    if cmds == [] then i else RunEntry(LoadEntry(i, cmds[0], ts[0]), cmds[1..], ts[1..])
  }

  lemma PutPut(s: Store, k: Bytes, i: Option<Entry>, j: Option<Entry>)
    ensures Put(s, k, Get(s, k)) == s && Get(Put(s, k, i), k) == i && Put(Put(s, k, i), k, j) == Put(s, k, j)
  {
  }

  lemma {:induction false} RunIs(s: Store, k: Bytes, cmds: seq<Argv>, ts: seq<Clock>)
    requires |ts| == |cmds| && Keyed(cmds, k)
    ensures RunAll(LoadCommand, s, cmds, ts) == Put(s, k, RunEntry(Get(s, k), cmds, ts))
    decreases |cmds|
  {
    hide Put, Get, LoadEntry;
    if cmds == [] {
      PutPut(s, k, None, None);
    } else {
      var i := LoadEntry(Get(s, k), cmds[0], ts[0]);
      RunIs(Put(s, k, i), k, cmds[1..], ts[1..]);
      PutPut(s, k, i, RunEntry(i, cmds[1..], ts[1..]));
    }
  }

  ghost predicate EntryKept(i: Option<Entry>, run: seq<Argv>, j: Option<Entry>, t: Clock) {
    forall x, ts: seq<Clock> :: |ts| == |run| && EntryStands(x, i, t) ==> EntryStands(RunEntry(x, run, ts), j, t)
  }

  lemma StandsPut(x: Store, s: Store, k: Bytes, i: Option<Entry>, j: Option<Entry>, t: Clock)
    requires StandsFor(x, s, t)
    ensures StandsFor(Put(x, k, i), Put(s, k, j), t) <==> EntryStands(i, j, t)
  {
    assert Get(Put(x, k, i), k) == i && Get(Put(s, k, j), k) == j;
    assert forall l :: l != k ==> Get(Put(x, k, i), l) == Get(x, l) && Get(Put(s, k, j), l) == Get(s, l);
  }

  /** A step that concerns one key is kept exactly when it is kept for that key. */
  lemma KeptIs(s: Store, k: Bytes, run: seq<Argv>, j: Option<Entry>, t: Clock)
    requires Keyed(run, k)
    ensures Kept(LoadCommand, StandsFor, s, run, Put(s, k, j), t) <==> EntryKept(Get(s, k), run, j, t)
  {
    hide Put, RunEntry, RunAll, LoadCommand, Keyed, EntryStands;
    var i := Get(s, k);
    if EntryKept(i, run, j, t) {
      forall x: Store, ts: seq<Clock> | |ts| == |run| && StandsFor(x, s, t)
        ensures StandsFor(RunAll(LoadCommand, x, run, ts), Put(s, k, j), t)
      {
        assert EntryStands(Get(x, k), i, t);
        RunIs(x, k, run, ts);
        StandsPut(x, s, k, RunEntry(Get(x, k), run, ts), j, t);
      }
    }
    if Kept(LoadCommand, StandsFor, s, run, Put(s, k, j), t) {
      forall y, ts: seq<Clock> | |ts| == |run| && EntryStands(y, i, t)
        ensures EntryStands(RunEntry(y, run, ts), j, t)
      {
        Itself(s, t);
        StandsPut(s, s, k, y, i, t);
        PutPut(s, k, y, i);
        var x := Put(s, k, y);
        assert StandsFor(RunAll(LoadCommand, x, run, ts), Put(s, k, j), t);
        RunIs(x, k, run, ts);
        PutPut(s, k, y, RunEntry(y, run, ts));
        StandsPut(s, s, k, RunEntry(y, run, ts), j, t);
      }
    }
  }

  lemma Itself(s: Store, t: Clock)
    ensures StandsFor(s, s, t)
  {
  }

  // ---- loading what was logged ----

  lemma RunOne(x: Option<Entry>, a: Argv, ts: seq<Clock>)
    requires |ts| == 1
    ensures RunEntry(x, [a], ts) == LoadEntry(x, a, ts[0])
  {
    hide LoadEntry;
    assert [a][1..] == [];
    assert RunEntry(x, [a], ts) == RunEntry(LoadEntry(x, a, ts[0]), [], ts[1..]);
  }

  lemma RunFirst(x: Option<Entry>, a: Argv, rest: seq<Argv>, ts: seq<Clock>)
    requires |ts| == |rest| + 1
    ensures RunEntry(x, [a] + rest, ts) == RunEntry(LoadEntry(x, a, ts[0]), rest, ts[1..])
  {
    hide LoadEntry;
    assert ([a] + rest)[1..] == rest;
  }

  lemma LoadDel(x: Option<Entry>, k: Bytes, t: Clock)
    ensures LoadEntry(x, [DelWord(), k], t) == None
  {
  }

  lemma LoadPlainSet(x: Option<Entry>, k: Bytes, v: Bytes, t: Clock)
    ensures LoadEntry(x, [SetWord(), k, v], t) == Some(Entry(v, None))
  {
    var argv := [SetWord(), k, v];
    assert OptionsFrom(argv, 3, PLAIN) == Some(PLAIN);
  }

  lemma LoadExpireAt(x: Option<Entry>, p: Proc, k: Bytes, seconds: Bytes, now: Clock, t: Clock)
    requires Parse(seconds).Some?
    ensures LoadEntry(x, ExpireAtArgv(p, k, seconds, now), t) ==
      if x.None? then None else Some(x.value.(when := Some(Deadline(p, Parse(seconds).value, now))))
  {
    hide LL, Atoi, Wrap;
    ParseLL(Deadline(p, Atoi(seconds), now));
    NotOther(ExpireAtArgv(p, k, seconds, now));
  }

  lemma NotOther(argv: Argv)
    requires |argv| == 3 && argv[0] == PExpireAtWord()
    ensures !IsDel(argv) && !IsSet(argv) && IsPExpireAt(argv)
  {
  }

  lemma LoadSet(x: Option<Entry>, c: Call, t: Clock)
    requires c.proc == Set && ArityOk(c) && Meaning(c).Setting? && Meaning(c).ttl != BadTtl
    ensures LoadEntry(x, c.argv, t) == if Stopped(Meaning(c), x) then x else Some(Stored(Meaning(c), t))
  {
    hide OptionsFrom, Named;
  }

  lemma WrapApart(x: int, y: int)
    requires -HALF < x - y < HALF
    ensures Wrap(x) == Wrap(y) <==> x == y
  {
    var m, a, b := 2 * HALF, x + HALF, y + HALF;
    assert a == a / m * m + a % m && b == b / m * m + b % m;
  }

  lemma ShiftedDeadline(p: Proc, arg: int, at: Clock, now: Clock)
    ensures Deadline(p, arg, now) == Deadline(p, arg, at) <==> !Relative(p) || now == at
  {
    hide Wrap;
    var ms := Millis(Seconds(p), arg);
    WrapApart(ms + now, ms + at);
  }

  // ---- when a step is kept ----

  lemma NothingKept(i: Option<Entry>, t: Clock)
    ensures EntryKept(i, [], i, t)
  {
  }

  lemma DelKept(i: Option<Entry>, k: Bytes, t: Clock)
    ensures EntryKept(i, [[DelWord(), k]], None, t)
  {
    hide LoadEntry;
    forall x, ts: seq<Clock> | |ts| == 1 && EntryStands(x, i, t)
      ensures EntryStands(RunEntry(x, [[DelWord(), k]], ts), None, t)
    {
      RunOne(x, [DelWord(), k], ts);
      LoadDel(x, k, ts[0]);
    }
  }

  /** A logged step that comes to one result, whatever it starts from and whenever it is loaded. */
  lemma CertainKept(i: Option<Entry>, run: seq<Argv>, e: Entry, j: Entry, t: Clock)
    requires forall x, ts: seq<Clock> :: |ts| == |run| && EntryStands(x, i, t) ==> RunEntry(x, run, ts) == Some(e)
    ensures EntryKept(i, run, Some(j), t) <==> e == j
  {
    hide RunEntry;
    var ts: seq<Clock> := seq(|run|, _ => 0);
    assert EntryStands(i, i, t);
    assert RunEntry(i, run, ts) == Some(e);
  }

  lemma ExpireLoads(e: Entry, c: Call, r: Readings, ts: seq<Clock>)
    requires ArityOk(c) && c.proc != Other && !Sets(c.proc) && Parse(c.argv[2]).Some? && |ts| == 1
    ensures RunEntry(Some(e), [ExpireAtArgv(c.proc, c.argv[1], c.argv[2], r.log)], ts) ==
      Some(e.(when := Some(Deadline(c.proc, Parse(c.argv[2]).value, r.log))))
  {
    hide LoadEntry, ExpireAtArgv, Parse, Deadline, RunEntry;
    RunOne(Some(e), ExpireAtArgv(c.proc, c.argv[1], c.argv[2], r.log), ts);
    LoadExpireAt(Some(e), c.proc, c.argv[1], c.argv[2], r.log, ts[0]);
  }

  lemma ExpireKept(e: Entry, c: Call, r: Readings, t: Clock)
    requires ArityOk(c) && c.proc != Other && !Sets(c.proc) && Parse(c.argv[2]).Some? && !Expired(Some(e), t)
    ensures var a, arg := ExpireAtArgv(c.proc, c.argv[1], c.argv[2], r.log), Parse(c.argv[2]).value;
      var e' := e.(when := Some(Deadline(c.proc, arg, r.base)));
      EntryKept(Some(e), [a], Some(e'), t) <==> !Relative(c.proc) || r.log == r.base
  {
    hide LoadEntry, ExpireAtArgv, Parse, Deadline, RunEntry;
    var arg := Parse(c.argv[2]).value;
    var a := ExpireAtArgv(c.proc, c.argv[1], c.argv[2], r.log);
    var e' := e.(when := Some(Deadline(c.proc, arg, r.log)));
    forall x, ts: seq<Clock> | |ts| == |[a]| && EntryStands(x, Some(e), t)
      ensures RunEntry(x, [a], ts) == Some(e')
    {
      ExpireLoads(e, c, r, ts);
    }
    CertainKept(Some(e), [a], e', e.(when := Some(Deadline(c.proc, arg, r.base))), t);
    ShiftedDeadline(c.proc, arg, r.base, r.log);
  }

  /** SET followed by PEXPIREAT, after a deletion or not. */
  lemma SetExLoads(x: Option<Entry>, c: Call, r: Readings, del: bool, ts: seq<Clock>)
    requires ArityOk(c) && (c.proc == SetEx || c.proc == PSetEx) && Meaning(c).ttl.Ttl? && |ts| == if del then 3 else 2
    ensures var a := [[SetWord(), c.argv[1], c.argv[3]], ExpireAtArgv(c.proc, c.argv[1], c.argv[2], r.log)];
      RunEntry(x, (if del then [[DelWord(), c.argv[1]]] else []) + a, ts) == Some(Stored(Meaning(c), r.log))
  {
    hide LoadEntry, ExpireAtArgv, Parse, RunEntry, Wrap;
    var k, v := c.argv[1], c.argv[3];
    var e := ExpireAtArgv(c.proc, k, c.argv[2], r.log);
    var a := [[SetWord(), k, v], e];
    var y, us := if del then LoadEntry(x, [DelWord(), k], ts[0]) else x, if del then ts[1..] else ts;
    if del {
      RunFirst(x, [DelWord(), k], a, ts);
    } else {
      assert [] + a == a;
    }
    assert a == [a[0]] + [e];
    RunFirst(y, a[0], [e], us);
    LoadPlainSet(y, k, v, us[0]);
    RunOne(Some(Entry(v, None)), e, us[1..]);
    LoadExpireAt(Some(Entry(v, None)), c.proc, k, c.argv[2], r.log, us[1]);
  }

  lemma SetExKept(i: Option<Entry>, c: Call, r: Readings, del: bool, t: Clock)
    requires ArityOk(c) && (c.proc == SetEx || c.proc == PSetEx) && Meaning(c).ttl.Ttl?
    ensures var a := [[SetWord(), c.argv[1], c.argv[3]], ExpireAtArgv(c.proc, c.argv[1], c.argv[2], r.log)];
      var run := (if del then [[DelWord(), c.argv[1]]] else []) + a;
      EntryKept(i, run, Some(Stored(Meaning(c), r.base)), t) <==> r.log == r.base
  {
    hide ExpireAtArgv, Parse, RunEntry, Wrap;
    var a := [[SetWord(), c.argv[1], c.argv[3]], ExpireAtArgv(c.proc, c.argv[1], c.argv[2], r.log)];
    var run := (if del then [[DelWord(), c.argv[1]]] else []) + a;
    forall x, ts: seq<Clock> | |ts| == |run| && EntryStands(x, i, t)
      ensures RunEntry(x, run, ts) == Some(Stored(Meaning(c), r.log))
    {
      SetExLoads(x, c, r, del, ts);
    }
    CertainKept(i, run, Stored(Meaning(c), r.log), Stored(Meaning(c), r.base), t);
    ShiftedDeadline(c.proc, Parse(c.argv[2]).value, r.base, r.log);
  }

  /** SET as it is, after a deletion or not. */
  lemma SetLoads(i: Option<Entry>, c: Call, del: bool, t: Clock, x: Option<Entry>, ts: seq<Clock>)
    requires ArityOk(c) && c.proc == Set && Meaning(c).Setting? && Meaning(c).ttl != BadTtl
    requires del || (!Expired(i, t) && !Stopped(Meaning(c), i))
    requires EntryStands(x, i, t) && |ts| == if del then 2 else 1
    ensures var a := Meaning(c);
      RunEntry(x, (if del then [[DelWord(), c.argv[1]]] else []) + [c.argv], ts) ==
      if del && a.xx then None else Some(Stored(a, ts[|ts| - 1]))
  {
    hide LoadEntry, Meaning, Named, RunEntry;
    if del {
      RunFirst(x, [DelWord(), c.argv[1]], [c.argv], ts);
      LoadDel(x, c.argv[1], ts[0]);
      RunOne(None, c.argv, ts[1..]);
      LoadSet(None, c, ts[1]);
    } else {
      assert [] + [c.argv] == [c.argv];
      RunOne(x, c.argv, ts);
      LoadSet(x, c, ts[0]);
    }
  }

  lemma SetKept(i: Option<Entry>, c: Call, r: Readings, del: bool, t: Clock)
    requires ArityOk(c) && c.proc == Set && Meaning(c).Setting? && Meaning(c).ttl != BadTtl
    requires del || (!Expired(i, t) && !Stopped(Meaning(c), i))
    ensures var a := Meaning(c); var run := (if del then [[DelWord(), c.argv[1]]] else []) + [c.argv];
      EntryKept(i, run, Some(Stored(a, r.base)), t) <==>
      if del && a.xx then Expired(Some(Stored(a, r.base)), t) else a.ttl.NoTtl?
  {
    hide Meaning, Named, RunEntry, Wrap, Stopped;
    var a := Meaning(c);
    var run := (if del then [[DelWord(), c.argv[1]]] else []) + [c.argv];
    forall x, ts: seq<Clock> | |ts| == |run| && EntryStands(x, i, t)
      ensures RunEntry(x, run, ts) == if del && a.xx then None else Some(Stored(a, ts[|ts| - 1]))
    {
      SetLoads(i, c, del, t, x, ts);
    }
    // a load at another time than the deadline was computed at
    var u: Clock := if r.base == 0 then 1 else 0;
    var ts: seq<Clock> := seq(|run|, _ => u);
    assert EntryStands(i, i, t) && RunEntry(i, run, ts) == if del && a.xx then None else Some(Stored(a, u));
    if a.ttl.Ttl? {
      WrapApart(a.ttl.ms + u, a.ttl.ms + r.base);
    }
  }

  // ---- the exact condition ----

  /** Whether the command gives its key a deadline. */
  predicate SetsDeadline(i: Option<Entry>, c: Call, r: Readings)
    requires ArityOk(c) && c.proc != Other
  {
    if Sets(c.proc) then Accepted(Meaning(c), i, r) && Meaning(c).ttl.Ttl?
    else
      && Parse(c.argv[2]).Some? && LookUp(i, r.look).Some?
      && Deadline(c.proc, Parse(c.argv[2]).value, r.base) > r.test
  }

  /** The key that SET XX found expires before it is looked up again to be overwritten. The deletion is
      logged first, and then the SET that it makes void. */
  predicate Slips(i: Option<Entry>, c: Call, r: Readings)
    requires ArityOk(c) && c.proc != Other
  {
    c.proc == Set && Accepted(Meaning(c), i, r) && Meaning(c).xx && Expired(i, r.again)
  }

  /** Apart from a slip, a deadline survives if it is absolute, or if it was made absolute from the reading
      that it was computed from. */
  predicate Keeps(i: Option<Entry>, c: Call, r: Readings, t: Clock)
    requires ArityOk(c) && c.proc != Other
  {
    if Slips(i, c, r) then Expired(Some(Stored(Meaning(c), r.base)), t)
    else !SetsDeadline(i, c, r) || !Relative(c.proc) || (c.proc != Set && r.log == r.base)
  }

  lemma TranslateNone(now: Clock)
    ensures TranslateAll([], now) == []
  {
  }

  lemma TranslateOne(c: Call, now: Clock)
    requires ArityOk(c)
    ensures TranslateAll([c], now) == Translate(c, now)
  {
    hide Translate;
    assert [c][..0] == [];
    assert TranslateAll([c], now) == TranslateAll([], now) + Translate(c, now);
  }

  lemma TranslateDel(k: Bytes, c: Call, now: Clock)
    requires ArityOk(c)
    ensures TranslateAll([DelCall(k), c], now) == [[DelWord(), k]] + Translate(c, now)
  {
    hide Translate;
    var cs := [DelCall(k), c];
    assert cs[..1] == [DelCall(k)];
    TranslateOne(DelCall(k), now);
    assert Translate(DelCall(k), now) == [[DelWord(), k]] by { DelTranslates(k, now); }
  }

  lemma DelTranslates(k: Bytes, now: Clock)
    ensures Translate(DelCall(k), now) == [[DelWord(), k]]
  {
  }

  /** What is fed for a call: a deletion or not, and then the call, a deletion or nothing. */
  lemma FedOk(i: Option<Entry>, c: Call, r: Readings)
    requires ArityOk(c) && c.proc != Other
    ensures var fed := LiveEntry(i, c, r).1; var d := DelCall(c.argv[1]);
      && (fed == [] || fed == [d] || fed == [c] || fed == [d, c])
      && (forall f :: f in fed ==> ArityOk(f))
  {
    hide Meaning, Parse, Deadline, Wrap;
    LiveSetFeeds(i, c, r);
    LiveExpireFeeds(i, c, r);
  }

  lemma LiveSetFeeds(i: Option<Entry>, c: Call, r: Readings)
    requires ArityOk(c)
    ensures Sets(c.proc) ==>
      var (j, fed) := LiveSet(i, c, r); var a := Meaning(c); var d := DelCall(c.argv[1]);
      if Accepted(a, i, r) then
        j == Some(Stored(a, r.base)) && fed == if SetDeletes(a, i, r) then [d, c] else [c]
      else
        (j == i && fed == []) || (j == None && fed == [d])
  {
    hide Meaning, Wrap, Stored;
  }

  /** Whether one of the lookups of an accepted setting finds the key expired. */
  predicate SetDeletes(a: Setting, i: Option<Entry>, r: Readings) {
    ((a.Setting? && (a.nx || a.xx)) && Expired(i, r.look)) || Expired(i, r.again)
  }

  lemma LiveExpireFeeds(i: Option<Entry>, c: Call, r: Readings)
    requires ArityOk(c)
    ensures c.proc != Other && !Sets(c.proc) ==>
      var (j, fed) := LiveExpire(i, c, r); var d := DelCall(c.argv[1]);
      if SetsDeadline(i, c, r) then
        && i.Some? && !Expired(i, r.look) && fed == [c]
        && j == Some(i.value.(when := Some(Deadline(c.proc, Parse(c.argv[2]).value, r.base))))
      else
        (j == i && fed == []) || (j == None && fed == [d])
  {
    hide Parse, Deadline, Meaning;
  }

  lemma EntrySetKeeps(i: Option<Entry>, c: Call, r: Readings, t: Clock)
    requires ArityOk(c) && Sets(c.proc) && r.From(t) && Accepted(Meaning(c), i, r)
    ensures var a := Meaning(c); var d := DelCall(c.argv[1]);
      var run := TranslateAll(if SetDeletes(a, i, r) then [d, c] else [c], r.log);
      EntryKept(i, run, Some(Stored(a, r.base)), t) <==> Keeps(i, c, r, t)
  {
    hide TranslateAll, EntryKept, SetMeaning, TtlOf, Named, ExpireAtArgv, Stored;
    var a, k := Meaning(c), c.argv[1];
    var del := SetDeletes(a, i, r);
    TranslateOne(c, r.log);
    TranslateDel(k, c, r.log);
    assert [] + Translate(c, r.log) == Translate(c, r.log);
    if c.proc == Set {
      SetKept(i, c, r, del, t);
    } else {
      TtlNeeded(c);
      SetExKept(i, c, r, del, t);
    }
  }

  lemma TtlNeeded(c: Call)
    requires ArityOk(c) && (c.proc == SetEx || c.proc == PSetEx) && Meaning(c).ttl != BadTtl
    ensures Meaning(c).Setting? && Meaning(c).ttl.Ttl?
  {
  }

  /** For one key, the logged step is kept exactly under the condition. */
  lemma EntryKeeps(i: Option<Entry>, c: Call, r: Readings, t: Clock)
    requires ArityOk(c) && c.proc != Other && r.From(t)
    ensures var (j, fed) := LiveEntry(i, c, r);
      (forall f :: f in fed ==> ArityOk(f)) && (EntryKept(i, TranslateAll(fed, r.log), j, t) <==> Keeps(i, c, r, t))
  {
    hide TranslateAll, EntryKept, Meaning, Named, LiveSet, LiveExpire, Deadline, Parse, Stored, Accepted;
    var k := c.argv[1];
    FedOk(i, c, r);
    TranslateNone(r.log);
    TranslateOne(DelCall(k), r.log);
    DelTranslates(k, r.log);
    NothingKept(i, t);
    DelKept(i, k, t);
    if Sets(c.proc) {
      LiveSetFeeds(i, c, r);
      if Accepted(Meaning(c), i, r) {
        EntrySetKeeps(i, c, r, t);
      }
    } else {
      LiveExpireFeeds(i, c, r);
      if SetsDeadline(i, c, r) {
        TranslateOne(c, r.log);
        ExpireKept(i.value, c, r, t);
      }
    }
  }

  lemma FedKeyed(i: Option<Entry>, c: Call, r: Readings)
    requires ArityOk(c) && c.proc != Other
    ensures var fed := LiveEntry(i, c, r).1;
      (forall f :: f in fed ==> ArityOk(f)) && Keyed(TranslateAll(fed, r.log), c.argv[1])
  {
    hide TranslateAll, Named, LiveEntry, LL, Deadline;
    var k := c.argv[1];
    FedOk(i, c, r);
    TranslateNone(r.log);
    TranslateOne(DelCall(k), r.log);
    DelTranslates(k, r.log);
    TranslateOne(c, r.log);
    TranslateDel(k, c, r.log);
  }

  /** What is logged of a command that may set a deadline leads, from any store that stands for the live
      one and whenever it is loaded, to a store that stands for the live one afterwards, if and only if the
      condition holds. */
  lemma TranslationKeeps(s: Store, c: Call, r: Readings, t: Clock)
    requires ArityOk(c) && c.proc != Other && r.From(t)
    ensures var (s', fed) := Live(s, c, r);
      && (forall f :: f in fed ==> ArityOk(f))
      && (Kept(LoadCommand, StandsFor, s, TranslateAll(fed, r.log), s', t) <==> Keeps(Get(s, c.argv[1]), c, r, t))
  {
    hide LiveEntry, TranslateAll, EntryKept, Keeps, Kept, Keyed, ArityOk, Get, Put;
    assert |c.argv| >= 2 by { HasKey(c); }
    var i := Get(s, c.argv[1]);
    EntryKeeps(i, c, r, t);
    FedKeyed(i, c, r);
    KeptIs(s, c.argv[1], TranslateAll(LiveEntry(i, c, r).1, r.log), LiveEntry(i, c, r).0, t);
  }

  lemma HasKey(c: Call)
    requires ArityOk(c) && c.proc != Other
    ensures |c.argv| >= 3
  {
  }

  // ---- how late a deadline becomes ----

  /** The reading from which a replayed deadline is computed. */
  function Counted(c: Call, r: Readings, ts: seq<Clock>): Clock
    requires ts != []
  {
    if c.proc == Set then ts[|ts| - 1] else r.log
  }

  function Due(c: Call, now: Clock): Option<int>
    requires ArityOk(c) && c.proc != Other
  {
    if Sets(c.proc) then
      var a := Meaning(c);
      if a.Setting? && a.ttl.Ttl? then Some(Wrap(a.ttl.ms + now)) else None
    else if Parse(c.argv[2]).Some? then Some(Deadline(c.proc, Parse(c.argv[2]).value, now)) else None
  }

  /** A command that sets a deadline leaves it counted from `base`. What was logged of it, replayed on the
      same store at the times ts, leaves everything as it was live, with the deadline counted from the
      reading of the log, and for SET from the time of the load. */
  lemma TranslationReplays(s: Store, c: Call, r: Readings, ts: seq<Clock>)
    requires ArityOk(c) && c.proc != Other
    requires SetsDeadline(Get(s, c.argv[1]), c, r) && !Slips(Get(s, c.argv[1]), c, r)
    requires (forall f :: f in Live(s, c, r).1 ==> ArityOk(f)) && |ts| == |TranslateAll(Live(s, c, r).1, r.log)|
    ensures var (s', fed) := Live(s, c, r); var k := c.argv[1];
      && ts != [] && k in s' && s'[k].when == Due(c, r.base)
      && RunAll(LoadCommand, s, TranslateAll(fed, r.log), ts) == s'[k := s'[k].(when := Due(c, Counted(c, r, ts)))]
  {
    hide TranslateAll, Meaning, Named, Parse, Deadline, LoadEntry, RunEntry, RunAll, LiveSet, LiveExpire, Wrap,
      ExpireAtArgv;
    var k := c.argv[1];
    var i := Get(s, k);
    FedKeyed(i, c, r);
    RunIs(s, k, TranslateAll(Live(s, c, r).1, r.log), ts);
    TranslateOne(c, r.log);
    TranslateDel(k, c, r.log);
    if Sets(c.proc) {
      var a := Meaning(c);
      LiveSetFeeds(i, c, r);
      var del := SetDeletes(a, i, r);
      assert [] + Translate(c, r.log) == Translate(c, r.log);
      if c.proc == Set {
        SetLoads(i, c, del, 0, i, ts);
      } else {
        SetExLoads(i, c, r, del, ts);
      }
    } else {
      LiveExpireFeeds(i, c, r);
      ExpireLoads(i.value, c, r, ts);
    }
  }

  /** PEXPIRE: the replayed deadline is later by the time between the two readings. */
  lemma LateLogging(s: Store, argv: Argv, ms: nat, r: Readings, ts: seq<Clock>)
    requires |argv| == 3 && argv[1] in s && !Expired(Some(s[argv[1]]), r.look) && Parse(argv[2]) == Some(ms)
    requires r.test < r.base + ms && r.base <= r.log && r.log + ms < HALF && |ts| == 1
    ensures var c := Call(PExpire, argv); var k := argv[1];
      && Live(s, c, r) == (s[k := s[k].(when := Some(r.base + ms))], [c])
      && RunAll(LoadCommand, s, Translate(c, r.log), ts) == s[k := s[k].(when := Some(r.base + ms + (r.log - r.base)))]
  {
    hide Parse, Wrap, RunAll, TranslateAll, LoadCommand, LiveEntry;
    var c := Call(PExpire, argv);
    InRangeStays(ms + r.base);
    InRangeStays(ms + r.log);
    LiveExpireFeeds(Some(s[argv[1]]), c, r);
    LiveEntryIs(Some(s[argv[1]]), c, r);
    TranslateOne(c, r.log);
    TranslationReplays(s, c, r, ts);
  }

  lemma LiveEntryIs(i: Option<Entry>, c: Call, r: Readings)
    requires ArityOk(c) && c.proc != Other
    ensures LiveEntry(i, c, r) == if Sets(c.proc) then LiveSet(i, c, r) else LiveExpire(i, c, r)
  {
  }

  /** SET key value PX milliseconds, as a client sends it. */
  function SetPx(k: Bytes, v: Bytes, ms: nat): Call { Call(Set, [SetWord(), k, v, [P, X], LL(ms)]) }

  lemma SetPxMeans(k: Bytes, v: Bytes, ms: nat)
    requires 0 < ms < HALF
    ensures ArityOk(SetPx(k, v, ms)) && Meaning(SetPx(k, v, ms)) == Setting(v, false, false, Ttl(ms))
  {
    hide LL, Parse;
    ParseLL(ms);
    var argv := SetPx(k, v, ms).argv;
    assert IsOption(argv[3], P, X) && !IsOption(argv[3], N, X) && !IsOption(argv[3], X, X) && !IsOption(argv[3], E, X);
    var o := PLAIN.(px := true, arg := Some(argv[4]));
    assert OptionsFrom(argv, 5, o) == Some(o);
    assert OptionsFrom(argv, 3, PLAIN) == Some(o);
  }

  /** SET with PX: the replayed deadline is counted from the time of the load, so that it is later by the
      whole time since the command was run. */
  lemma SetIsLate(s: Store, k: Bytes, v: Bytes, ms: nat, r: Readings, ts: seq<Clock>)
    requires 0 < ms && k !in s && |ts| == 1 && r.base <= ts[0] && ts[0] + ms < HALF
    ensures ArityOk(SetPx(k, v, ms))
    ensures Live(s, SetPx(k, v, ms), r) == (s[k := Entry(v, Some(r.base + ms))], [SetPx(k, v, ms)])
    ensures RunAll(LoadCommand, s, Translate(SetPx(k, v, ms), r.log), ts) ==
      s[k := Entry(v, Some(r.base + ms + (ts[0] - r.base)))]
  {
    hide Wrap, RunAll, TranslateAll, LoadCommand, LiveEntry, LiveSet, Meaning, LL, ArityOk;
    var c := SetPx(k, v, ms);
    SetPxMeans(k, v, ms);
    InRangeStays(ms + r.base);
    InRangeStays(ms + ts[0]);
    LiveSetFeeds(None, c, r);
    LiveEntryIs(None, c, r);
    TranslateOne(c, r.log);
    TranslationReplays(s, c, r, ts);
  }

  /** SET with XX of a key that expires between its two lookups: the live key is set, and the log loses it. */
  lemma SetXxSlips(s: Store, k: Bytes, v: Bytes, when: Clock, r: Readings, t: Clock)
    requires k in s && s[k].when == Some(when) && r.look <= when < r.again && r.From(t)
    ensures var c := Call(Set, [SetWord(), k, v, [X, X]]);
      && ArityOk(c) && k in Live(s, c, r).0 && (forall f :: f in Live(s, c, r).1 ==> ArityOk(f))
      && !Kept(LoadCommand, StandsFor, s, TranslateAll(Live(s, c, r).1, r.log), Live(s, c, r).0, t)
  {
    hide Kept, TranslateAll, Wrap;
    var c := Call(Set, [SetWord(), k, v, [X, X]]);
    assert IsOption(c.argv[3], X, X) && !IsOption(c.argv[3], N, X);
    assert OptionsFrom(c.argv, 4, PLAIN.(xx := true)) == Some(PLAIN.(xx := true));
    assert OptionsFrom(c.argv, 3, PLAIN) == Some(PLAIN.(xx := true));
    TranslationKeeps(s, c, r, t);
  }
}
