/** dictScan: what one call emits, and what a whole iteration covers while the dictionary
    is resized and rehashed between calls. */
module Scan {
  import opened Words
  import opened DictModel
  import opened Dictionary
  import opened ScanCursor
  import ReverseLoop

  /** Bits of an unsigned long. */
  const W: nat := ReverseLoop.W

  /** The tables as one call finds them; idx is -1 outside a rehash. */
  datatype Snapshot = Snapshot(t0: Table, t1: Table, idx: int) {
    function Smaller(): Table { if idx != -1 && t0.Size() > t1.Size() then t1 else t0 }

    function Larger(): Table { if idx != -1 && t0.Size() > t1.Size() then t0 else t1 }
  }

  ghost predicate SnapOk(hash: Key -> nat, s: Snapshot) {
    && Ok(hash, s.t0, s.t1, s.idx)
    && (s.t0.Table? ==> s.t0.exp < W) && (s.t1.Table? ==> s.t1.exp < W)
  }

  ghost predicate Present(s: Snapshot, k: Key) {
    !Absent(All(s.t0, s.t1), k)
  }

  /** Entries of the buckets from lo to hi - 1 that are expansions of the low a bits of v. */
  ghost function Span(b: seq<Chain>, v: nat, a: nat, lo: nat, hi: nat): set<Entry>
    requires hi <= |b|
  {
    set i, e | lo <= i < hi && Low(i, a) == Low(v, a) && e in Entries(b[i]) :: e
  }

  /** The entries one call emits: the cursor's bucket of the smaller table and, during a
      rehash, its expansions in the larger table from the cursor itself upwards. */
  ghost function Emitted(s: Snapshot, v: nat): set<Entry>
    requires s.t0.Table? && (s.idx != -1 ==> s.t1.Table?)
    requires |s.Smaller().buckets| == P(s.Smaller().exp)
    requires s.idx != -1 ==> |s.Larger().buckets| == P(s.Larger().exp)
  {
    var a := s.Smaller().exp;
    Entries(s.Smaller().buckets[Low(v, a)]) +
    if s.idx == -1 then {} else Span(s.Larger().buckets, v, a, Low(v, s.Larger().exp), P(s.Larger().exp))
  }

  lemma SnapShape(hash: Key -> nat, s: Snapshot)
    requires SnapOk(hash, s)
    ensures s.t0.Table? ==> |s.t0.buckets| == P(s.t0.exp) && s.t0.exp < W
    ensures s.t1.Table? ==> |s.t1.buckets| == P(s.t1.exp) && s.t1.exp < W
    ensures s.idx != -1 ==> s.t0.Table? && s.t1.Table? && s.Smaller().exp < s.Larger().exp
    ensures s.idx == -1 ==> s.t1.NullTable?
  {
    OkShape(hash, s.t0, s.t1, s.idx);
    if s.idx != -1 {
      if s.t0.exp < s.t1.exp {
        PMonotone(s.t0.exp, s.t1.exp);
      } else {
        PMonotone(s.t1.exp, s.t0.exp);
      }
    }
  }

  method EmitChain(c: Chain, out: seq<Entry>) returns (r: seq<Entry>)
    ensures forall e :: e in r <==> e in out || e in Entries(c)
  {
    var de := c;
    r := out;
    while de.Cons?
      invariant forall e :: e in out || e in Entries(c) <==> e in r || e in Entries(de)
      decreases de
    {
      r := r + [de.head];
      de := de.next;
    }
  }

  /** One turn of the expansion loop. */
  lemma ExpansionStep(v: nat, a: nat, b: nat)
    requires a < b < W && v < P(W)
    ensures var u := NextExpansion(v, a, W);
      && u < P(W) && Low(u, a) == Low(v, a)
      && (And(u, Xor(P(a) - 1, P(b) - 1, W), W) == 0 <==> Low(v, b) + P(a) >= P(b))
      && (Low(v, b) + P(a) < P(b) ==> Low(u, b) == Low(v, b) + P(a))
  {
    hide P, Low, And, Xor, NextExpansion, StepHigh;
    var u := NextExpansion(v, a, W);
    NextExpansionIsStep(v, a, W);
    StepHighLow(v, a, b, W);
    XorMasks(a, b, W);
    FieldValue(u, a, b, W);
    LowLow(v, a, b);
  }

  /** No expansion lies strictly between one and the next. */
  lemma SpanStep(b: seq<Chain>, v: nat, a: nat, lo: nat, x: nat, hi: nat)
    requires lo <= x < hi <= |b| && hi <= x + P(a) && Low(x, a) == Low(v, a)
    ensures Span(b, v, a, lo, hi) == Span(b, v, a, lo, x) + Entries(b[x])
  {
    forall i | x < i < hi
      ensures Low(i, a) != Low(v, a)
    {
      if Low(i, a) == Low(v, a) {
        LowGap(x, i, a);
      }
    }
  }

  /** The loop over the expansions of the cursor in the larger table. */
  method EmitExpansions(t1: Table, v0: nat, a: nat, out0: seq<Entry>) returns (v: nat, out: seq<Entry>)
    requires t1.Table? && |t1.buckets| == P(t1.exp)
    requires a < t1.exp < W && v0 < P(W)
    ensures v < P(W) && Low(v, a) == Low(v0, a)
    ensures forall e :: e in out <==> e in out0 || e in Span(t1.buckets, v0, a, Low(v0, t1.exp), P(t1.exp))
  {
    hide Entries, Span, Low, NextExpansion, P, Xor, And;
    var b := t1.exp;
    v, out := v0, out0;
    SpanEmpty(t1.buckets, v0, a, Low(v0, b));
    while true
      invariant v < P(W) && Low(v, a) == Low(v0, a)
      invariant Low(v0, b) <= Low(v, b)
      invariant forall e :: e in out <==> e in out0 || e in Span(t1.buckets, v0, a, Low(v0, b), Low(v, b))
      decreases P(b) - Low(v, b)
    {
      AndMask(v, b, W);
      out := EmitChain(t1.buckets[And(v, P(b) - 1, W)], out);
      LowLow(v, a, b);
      ExpansionStep(v, a, b);
      var x := Low(v, b);
      SpanStep(t1.buckets, v0, a, Low(v0, b), x, if x + P(a) < P(b) then x + P(a) else P(b));
      v := NextExpansion(v, a, W);
      if And(v, Xor(P(a) - 1, P(b) - 1, W), W) == 0 {
        break;
      }
    }
  }

  lemma SpanEmpty(b: seq<Chain>, v: nat, a: nat, lo: nat)
    requires lo <= |b|
    ensures Span(b, v, a, lo, lo) == {}
  {
  }

  /** The next cursor depends on the low bits only. */
  lemma SameLowNext(v: nat, u: nat, a: nat)
    requires a <= W && Low(u, a) == Low(v, a)
    ensures NextCursor(u, a, W) == NextCursor(v, a, W)
  {
    OrNotMask(v, a, W);
    OrNotMask(u, a, W);
    FillAgrees(v, u, a, W);
  }

  /** One call: returns the next cursor and the emitted entries. */
  method DictScan(ghost hash: Key -> nat, s: Snapshot, v0: nat) returns (v: nat, out: seq<Entry>)
    requires SnapOk(hash, s) && v0 < P(W)
    ensures s.t0.Used() + s.t1.Used() == 0 ==> v == 0 && out == []
    ensures s.t0.Used() + s.t1.Used() != 0 ==>
      && s.t0.Table? && (s.idx != -1 ==> s.t1.Table?)
      && |s.Smaller().buckets| == P(s.Smaller().exp)
      && (s.idx != -1 ==> |s.Larger().buckets| == P(s.Larger().exp))
      && v == NextCursor(v0, s.Smaller().exp, W)
      && forall e :: e in out <==> e in Emitted(s, v0)
  {
    hide SnapOk, Entries, Span, Low, P, Xor, And, Or, Not, Inc, Rev;
    SnapShape(hash, s);
    if s.t0.Used() + s.t1.Used() == 0 {
      return 0, [];
    }
    var t0 := s.Smaller();
    var a := t0.exp;
    v := v0;
    AndMask(v, a, W);
    out := EmitChain(t0.buckets[And(v, P(a) - 1, W)], []);
    if s.idx != -1 {
      v, out := EmitExpansions(s.Larger(), v0, a, out);
      SameLowNext(v0, v, a);
    }
    OrBound(v, Not(P(a) - 1, W), W);
    v := Or(v, Not(P(a) - 1, W), W);
    v := ReverseLoop.ReverseBits(v);
    IncBound(v, W);
    v := Inc(v, W);
    v := ReverseLoop.ReverseBits(v);
  }

  // ---- coverage ----

  /** Words between the cursor and the point the next cursor moves to. */
  predicate InBlock(v: nat, a: nat, h: nat) { Rev(v, W) <= Rev(h, W) <= Rev(Fill(v, a, W), W) }

  /** Where an entry of a table lies. */
  lemma InItsBucket(hash: Key -> nat, t: Table, e: Entry)
    requires TableOk(hash, t) && e in Items(t)
    ensures t.Table? && |t.buckets| == P(t.exp)
    ensures e in Entries(t.buckets[Low(hash(e.key), t.exp)])
  {
    InOwnChain(hash, t.exp, t.buckets, e);
  }

  lemma InSpan(b: seq<Chain>, v: nat, a: nat, lo: nat, hi: nat, i: nat, e: Entry)
    requires lo <= i < hi <= |b| && Low(i, a) == Low(v, a) && e in Entries(b[i])
    ensures e in Span(b, v, a, lo, hi)
  {
  }

  lemma SnapTables(hash: Key -> nat, s: Snapshot)
    requires SnapOk(hash, s)
    ensures TableOk(hash, s.t0) && TableOk(hash, s.t1)
    ensures All(s.t0, s.t1) == Items(s.t0) + Items(s.t1)
    ensures s.t1.NullTable? ==> Items(s.t1) == {}
    ensures s.t0.NullTable? ==> Items(s.t0) == {}
    ensures s.t0.Used() + s.t1.Used() == 0 ==> All(s.t0, s.t1) == {}
  {
    NoEntriesIf(hash, s.t0, s.t1, s.idx);
  }

  lemma NoEntriesIf(hash: Key -> nat, t0: Table, t1: Table, idx: int)
    requires Ok(hash, t0, t1, idx)
    ensures t0.Used() + t1.Used() == 0 ==> All(t0, t1) == {}
  {
    if t0.Used() + t1.Used() == 0 {
      NoEntries(hash, t0, t1, idx);
    }
  }

  /** Each call emits every entry of its block, provided that, during a rehash, the cursor's
      bits between the two masks are ones followed by zeros. */
  lemma CallCovers(hash: Key -> nat, s: Snapshot, v: nat, e: Entry)
    requires SnapOk(hash, s) && s.t0.Table? && (s.idx != -1 ==> s.t1.Table?)
    requires e in All(s.t0, s.t1)
    requires InBlock(v, s.Smaller().exp, hash(e.key))
    requires s.idx != -1 ==> s.Smaller().exp <= s.Larger().exp && OnesThenZeros(v, s.Smaller().exp, s.Larger().exp)
    ensures |s.Smaller().buckets| == P(s.Smaller().exp)
    ensures s.idx != -1 ==> |s.Larger().buckets| == P(s.Larger().exp)
    ensures e in Emitted(s, v)
  {
    hide SnapOk, All, Items, TableOk, P, Low, Rev, Fill, OnesThenZeros, Entries, Span;
    SnapShape(hash, s);
    SnapTables(hash, s);
    var a, h := s.Smaller().exp, hash(e.key);
    BlockSharesBucket(v, h, a, W);
    if e in Items(s.Smaller()) {
      InItsBucket(hash, s.Smaller(), e);
    } else {
      var t := s.Larger();
      InItsBucket(hash, t, e);
      PendingAboveCursor(v, h, a, t.exp, W);
      LowLow(h, a, t.exp);
      InSpan(t.buckets, v, a, Low(v, t.exp), P(t.exp), Low(h, t.exp), e);
    }
  }

  /** Exactly the cursors of that form cover their block: otherwise some hash in the block
      belongs to a bucket of the larger table that the loop has already passed. */
  lemma BlockCoveredExactly(v: nat, a: nat, b: nat)
    requires a <= b <= W
    ensures (forall h :: InBlock(v, a, h) ==> Low(v, b) <= Low(h, b)) <==> OnesThenZeros(v, a, b)
  {
    hide P, Low, Rev, Fill, OnesThenZeros, Missed;
    if OnesThenZeros(v, a, b) {
      forall h | InBlock(v, a, h)
        ensures Low(v, b) <= Low(h, b)
      {
        BlockSharesBucket(v, h, a, W);
        PendingAboveCursor(v, h, a, b, W);
      }
    } else {
      var h := Missed(v, a, b);
      MissedBelow(v, a, b);
      MissedIsPending(v, a, b, W);
      LowId(h, b);
      assert InBlock(v, a, h);
    }
  }

  /** An entry whose hash is the missed one is skipped by the call that should emit it. */
  lemma CallMisses(hash: Key -> nat, s: Snapshot, v: nat, e: Entry)
    requires SnapOk(hash, s) && s.idx != -1 && s.t0.Table? && s.t1.Table?
    requires s.Smaller().exp <= s.Larger().exp && !OnesThenZeros(v, s.Smaller().exp, s.Larger().exp)
    requires e in Items(s.Larger()) && hash(e.key) == Missed(v, s.Smaller().exp, s.Larger().exp)
    ensures |s.Smaller().buckets| == P(s.Smaller().exp) && |s.Larger().buckets| == P(s.Larger().exp)
    ensures InBlock(v, s.Smaller().exp, hash(e.key)) && e !in Emitted(s, v)
  {
    hide SnapOk, P, Low, Rev, Fill, OnesThenZeros, Missed, TableOk, Items;
    SnapShape(hash, s);
    SnapTables(hash, s);
    var a, b := s.Smaller().exp, s.Larger().exp;
    MissedBelow(v, a, b);
    MissedIsPending(v, a, b, W);
    LowId(hash(e.key), b);
    NotInSmaller(hash, s, e);
    OnlyInItsBucket(hash, s.Larger(), e);
  }

  lemma NotInSmaller(hash: Key -> nat, s: Snapshot, e: Entry)
    requires SnapOk(hash, s) && s.idx != -1 && e in Items(s.Larger())
    ensures s.Smaller().Table?
    ensures forall i :: 0 <= i < |s.Smaller().buckets| ==> e !in Entries(s.Smaller().buckets[i])
  {
    OkShape(hash, s.t0, s.t1, s.idx);
    forall i | 0 <= i < |s.Smaller().buckets|
      ensures e !in Entries(s.Smaller().buckets[i])
    {
      BucketSubset(s.Smaller().buckets, i);
    }
  }

  lemma OnlyInItsBucket(hash: Key -> nat, t: Table, e: Entry)
    requires TableOk(hash, t) && t.Table?
    ensures forall i :: 0 <= i < |t.buckets| && e in Entries(t.buckets[i]) ==> i == Low(hash(e.key), t.exp)
  {
    InOwnChain(hash, t.exp, t.buckets, e);
  }

  // ---- whole iterations ----

  /** The cursor a call returns. */
  function CursorAfter(s: Snapshot, v: nat): nat {
    if s.t0.Used() + s.t1.Used() == 0 || s.t0.NullTable? || (s.idx != -1 && s.t1.NullTable?) then 0
    else NextCursor(v, s.Smaller().exp, W)
  }

  /** An iteration: calls made on arbitrary valid states of the dictionary, from cursor 0
      until a call returns 0 again. */
  ghost predicate Iteration(hash: Key -> nat, snaps: seq<Snapshot>, cursors: seq<nat>) {
    && |snaps| > 0 && |cursors| == |snaps| + 1
    && cursors[0] == 0 && cursors[|snaps|] == 0
    && (forall i :: 0 < i < |snaps| ==> cursors[i] != 0)
    && (forall i :: 0 <= i < |snaps| ==> SnapOk(hash, snaps[i]) && cursors[i + 1] == CursorAfter(snaps[i], cursors[i]))
  }

  ghost predicate EmitsKey(s: Snapshot, v: nat, k: Key) {
    && s.t0.Table? && (s.idx != -1 ==> s.t1.Table?)
    && |s.Smaller().buckets| == P(s.Smaller().exp)
    && (s.idx != -1 ==> |s.Larger().buckets| == P(s.Larger().exp))
    && !Absent(Emitted(s, v), k)
  }

  /** What a caller can check before a call: outside a rehash nothing, during one the shape
      of the cursor's bits between the two masks. */
  predicate Condition(s: Snapshot, v: nat) {
    (s.idx != -1 && s.t0.Table? && s.t1.Table? && s.Smaller().exp <= s.Larger().exp)
    ==> OnesThenZeros(v, s.Smaller().exp, s.Larger().exp)
  }

  lemma PresentTables(hash: Key -> nat, s: Snapshot, k: Key)
    requires SnapOk(hash, s) && Present(s, k)
    ensures s.t0.Table? && (s.idx != -1 ==> s.t1.Table?)
    ensures s.t0.Used() + s.t1.Used() != 0
  {
    SnapTables(hash, s);
    OkShape(hash, s.t0, s.t1, s.idx);
  }

  /** From a call whose cursor has not passed k, some later call emits k. */
  lemma {:induction false} Sweep(hash: Key -> nat, snaps: seq<Snapshot>, cursors: seq<nat>, k: Key, i: nat)
    requires Iteration(hash, snaps, cursors) && i < |snaps|
    requires forall j :: 0 <= j < |snaps| ==> Present(snaps[j], k) && Condition(snaps[j], cursors[j])
    requires Rev(cursors[i], W) <= Rev(hash(k), W)
    ensures exists j :: i <= j < |snaps| && EmitsKey(snaps[j], cursors[j], k)
    decreases |snaps| - i
  {
    hide SnapOk, Emitted, NextCursor, Rev, Fill, P, All, OnesThenZeros;
    var s, v, h := snaps[i], cursors[i], hash(k);
    PresentTables(hash, s, k);
    SnapShape(hash, s);
    var a := s.Smaller().exp;
    NextCursorGrows(v, a, W);
    if Rev(h, W) <= Rev(Fill(v, a, W), W) {
      var e :| e in All(s.t0, s.t1) && e.key == k;
      CallCovers(hash, s, v, e);
    } else {
      Sweep(hash, snaps, cursors, k, i + 1);
    }
  }

  /** A key present at every call of an iteration is emitted by one of them, whatever
      inserts, deletes, rehash steps and resizes happen between the calls. */
  lemma ScanCoverage(hash: Key -> nat, snaps: seq<Snapshot>, cursors: seq<nat>, k: Key)
    requires Iteration(hash, snaps, cursors)
    requires forall j :: 0 <= j < |snaps| ==> Present(snaps[j], k) && Condition(snaps[j], cursors[j])
    ensures exists j :: 0 <= j < |snaps| && EmitsKey(snaps[j], cursors[j], k)
  {
    RevZero(W);
    Sweep(hash, snaps, cursors, k, 0);
  }

  /** The reversed cursor strictly increases until the last call. */
  lemma ScanProgress(hash: Key -> nat, snaps: seq<Snapshot>, cursors: seq<nat>, i: nat)
    requires Iteration(hash, snaps, cursors) && i + 1 < |snaps|
    ensures Rev(cursors[i], W) < Rev(cursors[i + 1], W)
  {
    hide Rev, Fill, NextCursor, P;
    SnapShape(hash, snaps[i]);
    assert cursors[i + 1] != 0 && cursors[i + 1] == CursorAfter(snaps[i], cursors[i]);
    NextCursorGrows(cursors[i], snaps[i].Smaller().exp, W);
  }

  // ---- the condition is needed ----

  /** A table of 16 buckets holding one key of hash 4. */
  function SixteenWith(k: Key, v: Val): Table {
    Table(4, seq(16, i => if i == 4 then Cons(Entry(k, v), Nil) else Nil), 1)
  }

  lemma SixteenOk(hash: Key -> nat, k: Key, v: Val)
    requires hash(k) == 4
    ensures Ok(hash, SixteenWith(k, v), NullTable, -1)
    ensures Ok(hash, SixteenWith(k, v), Empty(2), 0)
    ensures Entry(k, v) in All(SixteenWith(k, v), NullTable)
    ensures Entry(k, v) in All(SixteenWith(k, v), Empty(2))
  {
    var t := Empty(4);
    StartRehashOk(hash, NullTable, 4);
    InsertOk(hash, t, NullTable, -1, Entry(k, v));
    assert P(4) == 16 && Index(4, 4) == 4;
    assert Push(t, 4, Entry(k, v)) == SixteenWith(k, v) by {
      assert forall i :: 0 <= i < 16 ==> t.buckets[i] == Nil;
      assert Push(t, 4, Entry(k, v)).buckets == SixteenWith(k, v).buckets;
    }
    StartRehashOk(hash, SixteenWith(k, v), 2);
  }

  lemma Skipped(k: Key, v: Val, c: nat)
    requires Low(c, 2) != 0 || Low(c, 4) > 4
    ensures !EmitsKey(Snapshot(SixteenWith(k, v), Empty(2), 0), c, k)
  {
    var s := Snapshot(SixteenWith(k, v), Empty(2), 0);
    assert P(2) == 4 && P(4) == 16;
    assert Low(4, 2) == 0;
    assert s.Smaller() == Empty(2) && s.Larger() == SixteenWith(k, v);
    assert Span(s.Larger().buckets, c, 2, Low(c, 4), 16) == {};
    assert Emitted(s, c) == {};
  }

  lemma ShrinkCursors(w: nat)
    requires w >= 4
    ensures NextCursor(0, 4, w) == 8 && NextCursor(8, 2, w) == 2 && NextCursor(2, 2, w) == 1
    ensures NextCursor(1, 2, w) == 3 && NextCursor(3, 2, w) == 0
  {
    hide NextCursor, Rev, Low, P;
    NextCursorLow(0, 4, w);
    NextCursorLow(8, 2, w);
    NextCursorLow(2, 2, w);
    NextCursorLow(1, 2, w);
    NextCursorLow(3, 2, w);
    SmallWords();
    FourBits();
  }

  lemma SmallWords()
    ensures P(2) == 4 && Rev(0, 2) == 0 && Rev(1, 2) == 2 && Rev(2, 2) == 1 && Rev(3, 2) == 3
    ensures Low(8, 2) == 0 && Low(2, 2) == 2 && Low(1, 2) == 1 && Low(3, 2) == 3
  {
  }

  lemma FourBits()
    ensures P(4) == 16 && Rev(0, 4) == 0 && Rev(1, 4) == 8 && Low(0, 4) == 0
  {
  }

  /** A key that stays put in a 16-bucket table is never emitted when the table starts
      shrinking to 4 buckets after the first call: the iteration 0, 8, 2, 1, 3 skips it. */
  lemma ScanMissesAfterShrink(hash: Key -> nat, k: Key, v: Val)
    requires hash(k) == 4
    ensures
      var t := SixteenWith(k, v);
      var s := Snapshot(t, Empty(2), 0);
      var snaps := [Snapshot(t, NullTable, -1), s, s, s, s];
      var cursors := [0, 8, 2, 1, 3, 0];
      && Iteration(hash, snaps, cursors)
      && (forall j :: 0 <= j < |snaps| ==> Present(snaps[j], k) && !EmitsKey(snaps[j], cursors[j], k))
  {
    hide Ok, All, EmitsKey, NextCursor, Low, Empty;
    var t := SixteenWith(k, v);
    var s := Snapshot(t, Empty(2), 0);
    SixteenOk(hash, k, v);
    EmptyIs(2);
    ShrinkCursors(W);
    assert s.Smaller() == Empty(2) && s.t1.Table? && s.t1.exp == 2 by {
      assert P(2) == 4 && P(4) == 16;
    }
    SkippedAll(k, v);
  }

  lemma SkippedAll(k: Key, v: Val)
    ensures var s := Snapshot(SixteenWith(k, v), Empty(2), 0);
      !EmitsKey(s, 8, k) && !EmitsKey(s, 2, k) && !EmitsKey(s, 1, k) && !EmitsKey(s, 3, k)
    ensures !EmitsKey(Snapshot(SixteenWith(k, v), NullTable, -1), 0, k)
  {
    hide EmitsKey;
    assert Low(8, 4) == 8 && Low(2, 2) == 2 && Low(1, 2) == 1 && Low(3, 2) == 3;
    Skipped(k, v, 8);
    Skipped(k, v, 2);
    Skipped(k, v, 1);
    Skipped(k, v, 3);
    SkippedFirst(k, v);
  }

  lemma SkippedFirst(k: Key, v: Val)
    ensures !EmitsKey(Snapshot(SixteenWith(k, v), NullTable, -1), 0, k)
  {
    assert Low(0, 4) == 0;
  }

  /** The second call of that iteration is the one that breaks the condition. */
  lemma ShrinkBreaksCondition(k: Key, v: Val)
    ensures !Condition(Snapshot(SixteenWith(k, v), Empty(2), 0), 8)
  {
    assert P(2) == 4 && P(4) == 16;
    assert Low(2, 2) == 2;
    assert !OnesThenZeros(2, 0, 2);
    assert !OnesThenZeros(4, 1, 3);
  }
}
