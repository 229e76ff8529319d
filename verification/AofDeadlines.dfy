/** The deadlines that EXPIRE, PEXPIRE, EXPIREAT, SETEX, PSETEX and SET with EX or PX give, in plain numbers:
    on the key, in the log, and on the key that the log restores. */
module AofDeadlines {
  import opened Wrappers
  import opened Memory
  import opened AofCodec
  import opened AofReplay
  import opened AofExpire

  /** What fits in a signed 64-bit number. */
  predicate Fits(v: int) { -9_223_372_036_854_775_808 <= v <= 9_223_372_036_854_775_807 }

  /** The moment an argument means, in milliseconds: seconds count a thousand each, and only EXPIREAT does not
      count from now. */
  function Moment(p: Proc, a: int, now: int): int
    requires p != Other && p != Set
  {
    match p
    case Expire => now + 1000 * a
    case SetEx => now + 1000 * a
    case PExpire => now + a
    case PSetEx => now + a
    case ExpireAt => 1000 * a
  }

  /** The number v, brought into range by whole turns of 64 bits. */
  ghost predicate Turned(r: int, v: int) { Fits(r) && exists q: int :: r == v + q * 18_446_744_073_709_551_616 }

  /** The deadline is the moment meant, if that fits, and else the number that it wraps around to. */
  lemma DeadlineIs(p: Proc, a: int, now: Clock)
    requires p != Other && p != Set && Fits(a)
    ensures var d := Deadline(p, a, now); Turned(d, Moment(p, a, now))
    ensures Fits(Moment(p, a, now)) ==> Deadline(p, a, now) == Moment(p, a, now)
  {
    hide Wrap, Turned;
    WrapIs(a * 1000);
    WrapIs(a + now);
    WrapTwice(a * 1000, now);
    TurnedOnce(Deadline(p, a, now), Moment(p, a, now));
  }

  lemma WrapIs(v: int)
    ensures Turned(Wrap(v), v)
  {
    var q := (v + HALF) / (2 * HALF);
    assert Wrap(v) == v + -q * 18_446_744_073_709_551_616;
  }

  /** Wrapping a part of a sum first makes no difference. */
  lemma WrapTwice(v: int, now: int)
    ensures Turned(Wrap(Wrap(v) + now), v + now)
  {
    hide Wrap;
    WrapIs(v);
    WrapIs(Wrap(v) + now);
    var q: int :| Wrap(v) == v + q * 18_446_744_073_709_551_616;
    var s: int :| Wrap(Wrap(v) + now) == Wrap(v) + now + s * 18_446_744_073_709_551_616;
    assert Wrap(Wrap(v) + now) == v + now + (q + s) * 18_446_744_073_709_551_616;
  }

  lemma TurnedOnce(r: int, v: int)
    ensures Turned(r, v) && Fits(v) ==> r == v
  {
  }

  // ---- the key ----

  /** The key is there: it has no deadline, or one that has not passed. */
  predicate Present(i: Option<Entry>, t: Clock) {
    i.Some? && (i.value.when.None? || i.value.when.value < 0 || t <= i.value.when.value)
  }

  /** EXPIRE, PEXPIRE and EXPIREAT of a number: the key gets the deadline meant, or is deleted if that has
      passed; a key that is not there stays away. */
  lemma ExpireLeaves(i: Option<Entry>, p: Proc, name: Bytes, k: Bytes, a: int, r: Readings)
    requires p == Expire || p == PExpire || p == ExpireAt
    requires Fits(a) && Fits(Moment(p, a, r.base))
    ensures var c := Call(p, [name, k, LL(a)]); var (j, fed) := LiveEntry(i, c, r); var when := Moment(p, a, r.base);
      && (!Present(i, r.look) ==> j == None)
      && (Present(i, r.look) && when <= r.test ==> j == None && fed == [Call(Other, [Ascii("DEL"), k])])
      && (Present(i, r.look) && r.test < when ==> j == Some(Entry(i.value.value, Some(when))) && fed == [c])
  {
    hide LL, Parse, Deadline;
    ParseLL(a);
    DeadlineIs(p, a, r.base);
    Words();
  }

  /** SETEX and PSETEX of a positive number set the value and the deadline meant, and of any other number are
      refused. */
  lemma SetExLeaves(i: Option<Entry>, p: Proc, name: Bytes, k: Bytes, a: int, v: Bytes, r: Readings)
    requires p == SetEx || p == PSetEx
    requires Fits(a) && Fits(Moment(p, a, r.base))
    ensures var c := Call(p, [name, k, LL(a), v]);
      if a <= 0 then LiveEntry(i, c, r) == (i, [])
      else LiveEntry(i, c, r).0 == Some(Entry(v, Some(Moment(p, a, r.base))))
  {
    hide LL, Parse, Wrap;
    ParseLL(a);
    SettingIs(p == SetEx, a, r.base);
  }

  lemma SettingIs(seconds: bool, a: int, now: Clock)
    requires Fits(a)
    ensures var ms := if seconds then 1000 * a else a;
      Fits(ms + now) ==> Wrap(Millis(seconds, a) + now) == ms + now
  {
    hide Wrap, Turned;
    WrapIs(a + now);
    WrapTwice(a * 1000, now);
    TurnedOnce(Wrap(Millis(seconds, a) + now), (if seconds then 1000 * a else a) + now);
  }

  /** EX or PX, in letters of either case. */
  predicate Unit(o: Bytes, seconds: bool) {
    && |o| == 2 && (o[1] == 88 || o[1] == 120)
    && if seconds then o[0] == 69 || o[0] == 101 else o[0] == 80 || o[0] == 112
  }

  /** SET with EX counts its number in seconds, with PX in milliseconds. */
  lemma SetLeaves(i: Option<Entry>, name: Bytes, k: Bytes, v: Bytes, o: Bytes, seconds: bool, a: int, r: Readings)
    requires Named(name, SetWord()) && Unit(o, seconds)
    requires Fits(a) && Fits((if seconds then 1000 * a else a) + r.base)
    ensures var c := Call(Set, [name, k, v, o, LL(a)]);
      if a <= 0 then LiveEntry(i, c, r) == (i, [])
      else LiveEntry(i, c, r).0 == Some(Entry(v, Some((if seconds then 1000 * a else a) + r.base)))
  {
    hide LL, Parse, Wrap, OptionsFrom;
    ParseLL(a);
    SettingIs(seconds, a, r.base);
    UnitIs([name, k, v, o, LL(a)], o, seconds);
  }

  lemma UnitIs(argv: Argv, o: Bytes, seconds: bool)
    requires |argv| == 5 && argv[3] == o && Unit(o, seconds)
    ensures OptionsFrom(argv, 3, PLAIN) == Some(Options(false, false, seconds, !seconds, Some(argv[4])))
  {
    assert IsOption(o, if seconds then E else P, X) && !IsOption(o, N, X) && !IsOption(o, X, X);
    assert !IsOption(o, if seconds then P else E, X);
    var s := Options(false, false, seconds, !seconds, Some(argv[4]));
    assert OptionsFrom(argv, 5, s) == Some(s);
  }

  /** NX or XX, in letters of either case. */
  predicate Condition(o: Bytes, absent: bool) {
    && |o| == 2 && (o[1] == 88 || o[1] == 120)
    && if absent then o[0] == 78 || o[0] == 110 else o[0] == 88 || o[0] == 120
  }

  /** SET with NX sets a key that is not there only, with XX one that is there only; without a time the key has
      no deadline. */
  lemma ConditionLeaves(i: Option<Entry>, name: Bytes, k: Bytes, v: Bytes, o: Bytes, absent: bool, r: Readings)
    requires Named(name, SetWord()) && Condition(o, absent)
    ensures var c := Call(Set, [name, k, v, o]);
      LiveEntry(i, c, r).0 ==
        if absent == Present(i, r.look) then (if Present(i, r.look) then i else None) else Some(Entry(v, None))
  {
    hide OptionsFrom;
    ConditionIs([name, k, v, o], o, absent);
  }

  lemma ConditionIs(argv: Argv, o: Bytes, absent: bool)
    requires |argv| == 4 && argv[3] == o && Condition(o, absent)
    ensures OptionsFrom(argv, 3, PLAIN) == Some(Options(absent, !absent, false, false, None))
  {
    assert IsOption(o, if absent then N else X, X) && !IsOption(o, if absent then X else N, X);
    var s := Options(absent, !absent, false, false, None);
    assert OptionsFrom(argv, 4, s) == Some(s);
  }

  // ---- the store ----

  /** EXPIRE a gives now + 1000 a, PEXPIRE a gives now + a and EXPIREAT a gives 1000 a, and no other key changes. */
  lemma ExpireGives(s: Store, p: Proc, name: Bytes, k: Bytes, a: int, r: Readings)
    requires p == Expire || p == PExpire || p == ExpireAt
    requires k in s && Present(Some(s[k]), r.look) && Fits(a) && Fits(1000 * a) && Fits(r.base + 1000 * a)
    ensures var when := if p == Expire then r.base + 1000 * a else if p == PExpire then r.base + a else 1000 * a;
      Live(s, Call(p, [name, k, LL(a)]), r).0 ==
        if r.test < when then s[k := Entry(s[k].value, Some(when))] else s - {k}
  {
    hide LL, LiveEntry;
    ExpireLeaves(Some(s[k]), p, name, k, a, r);
  }

  /** SETEX a, and SET with EX a, give now + 1000 a; PSETEX a, and SET with PX a, give now + a. */
  lemma SetGives(s: Store, name: Bytes, k: Bytes, a: int, v: Bytes, r: Readings)
    requires 0 < a && Fits(1000 * a) && Fits(r.base + 1000 * a)
    ensures Live(s, Call(SetEx, [name, k, LL(a), v]), r).0 == s[k := Entry(v, Some(r.base + 1000 * a))]
    ensures Live(s, Call(PSetEx, [name, k, LL(a), v]), r).0 == s[k := Entry(v, Some(r.base + a))]
    ensures forall o, n :: Named(n, SetWord()) && Unit(o, true) ==>
      Live(s, Call(Set, [n, k, v, o, LL(a)]), r).0 == s[k := Entry(v, Some(r.base + 1000 * a))]
    ensures forall o, n :: Named(n, SetWord()) && Unit(o, false) ==>
      Live(s, Call(Set, [n, k, v, o, LL(a)]), r).0 == s[k := Entry(v, Some(r.base + a))]
  {
    hide LL, LiveEntry, Named, Unit;
    SetExLeaves(Get(s, k), SetEx, name, k, a, v, r);
    SetExLeaves(Get(s, k), PSetEx, name, k, a, v, r);
    forall o, n, seconds | Named(n, SetWord()) && Unit(o, seconds)
      ensures Live(s, Call(Set, [n, k, v, o, LL(a)]), r).0 ==
        s[k := Entry(v, Some(r.base + if seconds then 1000 * a else a))]
    {
      SetLeaves(Get(s, k), n, k, v, o, seconds, a, r);
    }
  }

  /** A second is a thousand milliseconds: EXPIRE leaves what PEXPIRE of a thousand times its number leaves. */
  lemma SecondsAreMillis(i: Option<Entry>, name: Bytes, k: Bytes, a: int, r: Readings)
    requires Fits(1000 * a) && Fits(r.base + 1000 * a)
    ensures
      LiveEntry(i, Call(Expire, [name, k, LL(a)]), r).0 == LiveEntry(i, Call(PExpire, [name, k, LL(1000 * a)]), r).0
  {
    hide LL, LiveEntry;
    ExpireLeaves(i, Expire, name, k, a, r);
    ExpireLeaves(i, PExpire, name, k, 1000 * a, r);
  }

  // ---- the log ----

  function Ascii(s: string): Bytes { seq(|s|, i requires 0 <= i < |s| => s[i] as int % 256) }

  lemma Words()
    ensures DelWord() == Ascii("DEL") && SetWord() == Ascii("SET") && PExpireAtWord() == Ascii("PEXPIREAT")
  {
    var d, s, p := "DEL", "SET", "PEXPIREAT";
    assert d[0] == 'D' && d[1] == 'E' && d[2] == 'L';
    assert s[0] == 'S' && s[1] == 'E' && s[2] == 'T';
    assert p[0] == 'P' && p[1] == 'E' && p[2] == 'X' && p[3] == 'P' && p[4] == 'I' && p[5] == 'R' && p[6] == 'E';
    assert p[7] == 'A' && p[8] == 'T';
  }

  /** What is logged of a command is PEXPIREAT of the moment it means when it is logged, after a SET without
      options for SETEX and PSETEX. */
  lemma LoggedAs(p: Proc, name: Bytes, k: Bytes, a: int, v: Bytes, now: Clock)
    requires p != Other && p != Set && Fits(a) && Fits(Moment(p, a, now))
    ensures var line := [Ascii("PEXPIREAT"), k, LL(Moment(p, a, now))];
      if p == SetEx || p == PSetEx then
        Translate(Call(p, [name, k, LL(a), v]), now) == [[Ascii("SET"), k, v], line]
      else Translate(Call(p, [name, k, LL(a)]), now) == [line]
  {
    hide LL, Atoi, Deadline;
    AtoiLL(a);
    DeadlineIs(p, a, now);
    Words();
  }

  /** The moment printed is the deadline that a key has once the line is loaded. */
  lemma RestoredAs(e: Entry, p: Proc, k: Bytes, a: int, now: Clock, t: Clock)
    requires p != Other && p != Set && Fits(a) && Fits(Moment(p, a, now))
    ensures LoadEntry(Some(e), [Ascii("PEXPIREAT"), k, LL(Moment(p, a, now))], t) ==
      Some(Entry(e.value, Some(Moment(p, a, now))))
  {
    hide LL, Atoi, Deadline, LoadEntry;
    AtoiLL(a);
    ParseLL(a);
    DeadlineIs(p, a, now);
    Words();
    LoadExpireAt(Some(e), p, k, LL(a), now, t);
  }
}
