/** Which node serves a command: hash tags, and the redirection that a node answers with. */
module Redirection {
  import opened Wrappers
  import opened ClusterNode

  type Key = string

  // ---- hash tags ----

  ghost predicate FirstAt(key: Key, from: nat, x: char, i: nat) {
    from <= i < |key| && key[i] == x && forall k :: from <= k < i ==> key[k] != x
  }

  ghost predicate NoneFrom(key: Key, from: nat, x: char) {
    forall k :: from <= k < |key| ==> key[k] != x
  }

  /** The part of a key that is hashed: what stands between the first opening brace and the
      first closing brace after it, or the whole key when that is missing or empty. */
  ghost predicate IsTag(key: Key, t: string) {
    || (NoneFrom(key, 0, '{') && t == key)
    || (exists s: nat :: FirstAt(key, 0, '{', s) && NoneFrom(key, s + 1, '}') && t == key)
    || (exists s: nat, e: nat :: Braces(key, s, e) && t == if e == s + 1 then key else key[s + 1..e])
  }

  ghost predicate Braces(key: Key, s: nat, e: nat) {
    FirstAt(key, 0, '{', s) && FirstAt(key, s + 1, '}', e)
  }

  lemma TagUnique(key: Key, t: string, u: string)
    requires IsTag(key, t) && IsTag(key, u)
    ensures t == u
  {
  }

  /** keyHashSlot, for any checksum. */
  method KeyHashSlot(crc: string -> nat, key: Key) returns (slot: nat, ghost tag: string)
    ensures IsTag(key, tag) && slot == crc(tag) % SLOTS && slot < SLOTS
  {
    var s := 0;
    while s < |key| && key[s] != '{'
      invariant 0 <= s <= |key| && forall k :: 0 <= k < s ==> key[k] != '{'
    {
      s := s + 1;
    }
    if s == |key| { return crc(key) % SLOTS, key; }
    assert FirstAt(key, 0, '{', s);
    var e := s + 1;
    while e < |key| && key[e] != '}'
      invariant s + 1 <= e <= |key| && forall k :: s + 1 <= k < e ==> key[k] != '}'
    {
      e := e + 1;
    }
    if e == |key| {
      assert NoneFrom(key, s + 1, '}');
      return crc(key) % SLOTS, key;
    }
    assert Braces(key, s, e);
    if e == s + 1 { return crc(key) % SLOTS, key; }
    return crc(key[s + 1..e]) % SLOTS, key[s + 1..e];
  }

  /** Keys of the form prefix{tag}suffix have the tag that their author meant, so keys that
      share it share a slot. */
  lemma TagIsShared(prefix: string, tag: string, suffix: string, t: string)
    requires '{' !in prefix && '}' !in tag && tag != ""
    requires IsTag(prefix + "{" + tag + "}" + suffix, t)
    ensures t == tag
  {
    hide IsTag, Braces;
    var key := prefix + "{" + tag + "}" + suffix;
    var s, e := |prefix|, |prefix| + 1 + |tag|;
    Parts(prefix, tag, suffix);
    BracesAt(key, s, e);
    TagOf(key, s, e);
    TagUnique(key, t, tag);
  }

  lemma Parts(prefix: string, tag: string, suffix: string)
    ensures var key := prefix + "{" + tag + "}" + suffix; var s, e := |prefix|, |prefix| + 1 + |tag|;
      && e < |key| && key[..s] == prefix && key[s] == '{' && key[s + 1..e] == tag && key[e] == '}'
  {
  }

  lemma BracesAt(key: Key, s: nat, e: nat)
    requires s < e < |key| && key[s] == '{' && key[e] == '}' && '{' !in key[..s] && '}' !in key[s + 1..e]
    ensures Braces(key, s, e)
  {
    assert forall k :: 0 <= k < s ==> key[k] == key[..s][k];
    assert forall k :: s + 1 <= k < e ==> key[k] == key[s + 1..e][k - s - 1];
  }

  lemma TagOf(key: Key, s: nat, e: nat)
    requires Braces(key, s, e) && e != s + 1
    ensures IsTag(key, key[s + 1..e])
  {
  }

  // ---- redirections ----

  /** A command or transaction: the keys of each of its commands, whether it is MIGRATE, whether
      the client or the command says ASKING, and whether a replica may serve it. */
  datatype Query = Query(commands: seq<seq<Key>>, migrate: bool, asking: bool, readOnly: bool)

  datatype Reply = Serve | Moved(n: Id) | Ask(n: Id) | Unbound | CrossSlot | TryAgain | Down

  /** The keys of all commands in order. */
  function Keys(commands: seq<seq<Key>>): seq<Key> {
    if commands == [] then [] else Keys(commands[..|commands| - 1]) + commands[|commands| - 1]
  }

  /** More than one different key. */
  ghost predicate Many(ks: seq<Key>) {
    exists k :: k in ks && k != ks[0]
  }

  /** A key this node does not hold. */
  ghost predicate Missing(ks: seq<Key>, has: set<Key>) {
    exists k :: k in ks && k !in has
  }

  /** The answer. Of the order of the keys only the slot of the first one matters. */
  ghost function Route(c: Cluster, up: bool, slotOf: Key -> nat, has: set<Key>, q: Query): Reply
    requires Linked(c)
  {
    var ks := Keys(q.commands);
    if ks == [] then Serve
    else
      var j := slotOf(ks[0]);
      if j !in c.slots then Unbound
      else if exists k :: k in ks && slotOf(k) != j then CrossSlot
      else if !up then Down
      else
        var owner := c.slots[j];
        var leaving := owner == c.me && j in c.migrating;
        var coming := !leaving && j in c.importing;
        var missing := Missing(ks, has);
        if (leaving || coming) && q.migrate then Serve
        else if leaving && missing then Ask(c.migrating[j])
        else if coming && q.asking then
          if missing && Many(ks) then TryAgain else Serve
        else if q.readOnly && !c.nodes[c.me].master && c.nodes[c.me].slaveof == Some(owner) then Serve
        else if owner == c.me then Serve else Moved(owner)
  }

  /** Every key lies in the slot of the first. */
  ghost predicate OneSlot(slotOf: Key -> nat, ks: seq<Key>) {
    ks != [] && forall k :: k in ks ==> slotOf(k) == slotOf(ks[0])
  }

  /** Slot j is being imported, and is not one that this node owns and gives away. */
  predicate Arriving(c: Cluster, j: nat) { j in c.importing && !(Mine(c, j) && j in c.migrating) }

  predicate Mine(c: Cluster, j: nat) { j in c.slots && c.slots[j] == c.me }

  /** This node may serve the keys of slot j itself: as owner, unless one has left with an open migration; by
      import, to a client told to ask; to MIGRATE in both cases; or to a reader, as a replica of the owner. */
  ghost predicate MayServe(c: Cluster, ks: seq<Key>, has: set<Key>, q: Query, j: nat) {
    || (Mine(c, j) && (j in c.migrating ==> q.migrate || forall k :: k in ks ==> k in has))
    || (Arriving(c, j) && (q.migrate || q.asking))
    || (q.readOnly && c.me in c.nodes && !c.nodes[c.me].master && j in c.slots
        && c.nodes[c.me].slaveof == Some(c.slots[j]))
  }

  /** A client told to ask wants several keys, of which one has not arrived. */
  ghost predicate HalfWay(c: Cluster, ks: seq<Key>, has: set<Key>, q: Query, j: nat) {
    && Arriving(c, j) && q.asking && !q.migrate
    && (exists k :: k in ks && k !in has) && exists k, l :: k in ks && l in ks && k != l
  }

  /** When each answer is given. */
  lemma RouteExactly(c: Cluster, up: bool, slotOf: Key -> nat, has: set<Key>, q: Query)
    requires Linked(c)
    ensures Keys(q.commands) == [] ==> Route(c, up, slotOf, has, q) == Serve
    ensures Keys(q.commands) != [] ==>
      var ks, r := Keys(q.commands), Route(c, up, slotOf, has, q); var j := slotOf(ks[0]);
      var one := j in c.slots && OneSlot(slotOf, ks);
      && (r == Unbound <==> j !in c.slots)
      && (r == CrossSlot <==> j in c.slots && !OneSlot(slotOf, ks))
      && (r == Down <==> one && !up)
      && (r == TryAgain <==> one && up && HalfWay(c, ks, has, q, j))
      && (r == Serve <==> one && up && MayServe(c, ks, has, q, j) && !HalfWay(c, ks, has, q, j))
      && (r.Ask? <==> one && up && Mine(c, j) && !MayServe(c, ks, has, q, j))
      && (r.Ask? ==> j in c.migrating && r.n == c.migrating[j])
      && (r.Moved? <==> one && up && !Mine(c, j) && !MayServe(c, ks, has, q, j))
      && (r.Moved? ==> r.n == c.slots[j])
  {
    hide Keys;
    var ks := Keys(q.commands);
    if ks != [] {
      assert ks[0] in ks;
      assert Many(ks) <==> exists k, l :: k in ks && l in ks && k != l;
    }
  }

  /** Two queries with the same keys and flags get the same answer exactly when their first keys
      both lie in assigned slots or both in unassigned ones. */
  lemma OrderMatters(c: Cluster, up: bool, slotOf: Key -> nat, has: set<Key>, q: Query, r: Query)
    requires Linked(c) && (forall k :: k in Keys(q.commands) <==> k in Keys(r.commands))
    requires q.migrate == r.migrate && q.asking == r.asking && q.readOnly == r.readOnly
    ensures Route(c, up, slotOf, has, q) == Route(c, up, slotOf, has, r) <==>
      Keys(q.commands) == []
      || (Keys(r.commands) != []
          && (slotOf(Keys(q.commands)[0]) in c.slots <==> slotOf(Keys(r.commands)[0]) in c.slots))
  {
    hide Links, Keys, Many, Missing;
    var ks, ls := Keys(q.commands), Keys(r.commands);
    SameEmpty(ks, ls);
    if ks != [] {
      assert ks[0] in ks && ks[0] in ls && ls[0] in ls && ls[0] in ks;
      SameMany(ks, ls, has);
    }
  }

  lemma SameEmpty(ks: seq<Key>, ls: seq<Key>)
    requires forall k :: k in ks <==> k in ls
    ensures ks == [] <==> ls == []
  {
    assert ks != [] ==> ks[0] in ks;
    assert ls != [] ==> ls[0] in ls;
  }

  lemma SameMany(ks: seq<Key>, ls: seq<Key>, has: set<Key>)
    requires ks != [] && ls != [] && forall k :: k in ks <==> k in ls
    ensures Many(ks) <==> Many(ls)
    ensures Missing(ks, has) <==> Missing(ls, has)
  {
    assert ks[0] in ks && ls[0] in ls;
    if Many(ks) {
      var k :| k in ks && k != ks[0];
      assert k in ls && ks[0] in ls;
    }
    if Many(ls) {
      var k :| k in ls && k != ls[0];
      assert k in ks && ls[0] in ks;
    }
  }

  /** So with one key in an assigned slot and one in an unassigned slot the order decides. */
  lemma TwoOrders(c: Cluster, up: bool, slotOf: Key -> nat, has: set<Key>, x: Key, y: Key)
    requires Linked(c) && slotOf(x) in c.slots && slotOf(y) !in c.slots
    ensures Route(c, up, slotOf, has, Query([[x, y]], false, false, false)) == CrossSlot
    ensures Route(c, up, slotOf, has, Query([[y, x]], false, false, false)) == Unbound
  {
    hide Links;
    OneCommand([x, y]);
    OneCommand([y, x]);
    assert [x, y][1] == y;
  }

  lemma OneCommand(ks: seq<Key>)
    ensures Keys([ks]) == ks
  {
    assert [ks][..0] == [];
    assert Keys([ks]) == Keys([ks][..0]) + ks;
  }

  /** What the key loops have found once they have seen ks. */
  ghost predicate Seen(
    c: Cluster, slotOf: Key -> nat, has: set<Key>, ks: seq<Key>,
    first: Option<Key>, leaving: bool, coming: bool, many: bool, missing: nat)
  {
    && (first.None? <==> ks == [])
    && (ks == [] ==> !leaving && !coming && !many && missing == 0)
    && (ks != [] ==>
          && first == Some(ks[0])
          && var j := slotOf(ks[0]);
             && j in c.slots && (forall k :: k in ks ==> slotOf(k) == j)
             && leaving == (c.slots[j] == c.me && j in c.migrating)
             && coming == (!leaving && j in c.importing)
             && many == Many(ks)
             && ((leaving || coming) ==> (missing > 0 <==> Missing(ks, has))))
  }

  lemma SeenNothing(c: Cluster, slotOf: Key -> nat, has: set<Key>)
    ensures Seen(c, slotOf, has, [], None, false, false, false, 0)
  {
  }

  lemma SeenParts(
    c: Cluster, slotOf: Key -> nat, has: set<Key>, ks: seq<Key>,
    first: Option<Key>, leaving: bool, coming: bool, many: bool, missing: nat)
    requires Seen(c, slotOf, has, ks, first, leaving, coming, many, missing)
    ensures first.None? <==> ks == []
    ensures ks == [] ==> !leaving && !coming && !many && missing == 0
    ensures ks != [] ==> first == Some(ks[0]) && slotOf(ks[0]) in c.slots
  {
  }

  lemma SeenFirst(c: Cluster, slotOf: Key -> nat, has: set<Key>, k: Key)
    requires slotOf(k) in c.slots
    ensures var leaving := c.slots[slotOf(k)] == c.me && slotOf(k) in c.migrating;
      var coming := !leaving && slotOf(k) in c.importing;
      Seen(c, slotOf, has, [k], Some(k), leaving, coming, false, if (leaving || coming) && k !in has then 1 else 0)
  {
    assert k in [k];
  }

  lemma SeenMore(
    c: Cluster, slotOf: Key -> nat, has: set<Key>, ks: seq<Key>,
    first: Option<Key>, leaving: bool, coming: bool, many: bool, missing: nat, k: Key)
    requires Seen(c, slotOf, has, ks, first, leaving, coming, many, missing)
    requires ks != [] && slotOf(k) == slotOf(ks[0])
    ensures Seen(c, slotOf, has, ks + [k], first, leaving, coming, many || k != ks[0],
      missing + if (leaving || coming) && k !in has then 1 else 0)
  {
    hide Many, Missing;
    assert (ks + [k])[0] == ks[0];
    OneMore(ks, k, has);
  }

  lemma OneMore(ks: seq<Key>, k: Key, has: set<Key>)
    requires ks != []
    ensures Many(ks + [k]) <==> Many(ks) || k != ks[0]
    ensures Missing(ks + [k], has) <==> Missing(ks, has) || k !in has
  {
    var ks' := ks + [k];
    assert ks'[0] == ks[0] && ks'[|ks|] == k;
    assert k in ks';
    if Many(ks') {
      var x :| x in ks' && x != ks'[0];
      assert x in ks || x == k;
    }
    if Missing(ks', has) {
      var x :| x in ks' && x !in has;
      assert x in ks || x == k;
    }
    if Many(ks) {
      var x :| x in ks && x != ks[0];
      assert x in ks';
    }
    if Missing(ks, has) {
      var x :| x in ks && x !in has;
      assert x in ks';
    }
  }

  lemma KeysNone()
    ensures Keys([]) == []
  {
  }

  lemma KeysPrefix(commands: seq<seq<Key>>, i: nat)
    requires i < |commands|
    ensures Keys(commands[..i + 1]) == Keys(commands[..i]) + commands[i]
  {
    assert commands[..i + 1][..i] == commands[..i];
  }

  lemma {:induction false} KeysAll(commands: seq<seq<Key>>, i: nat, j: nat)
    requires i < |commands| && j <= |commands[i]|
    ensures Keys(commands[..i]) + commands[i][..j] <= Keys(commands)
    decreases |commands|
  {
    var n := |commands| - 1;
    if i == n {
      assert commands[i] == commands[i][..j] + commands[i][j..];
      assert Keys(commands) == Keys(commands[..i]) + commands[i][..j] + commands[i][j..];
    } else {
      KeysAll(commands[..n], i, j);
      assert commands[..n][..i] == commands[..i];
    }
  }

  /** An answer that depends only on the keys seen so far is the answer for all of them. */
  lemma EarlyAnswer(c: Cluster, up: bool, slotOf: Key -> nat, has: set<Key>, q: Query, ks: seq<Key>, k: Key)
    requires Linked(c) && ks + [k] <= Keys(q.commands)
    ensures ks == [] && slotOf(k) !in c.slots ==> Route(c, up, slotOf, has, q) == Unbound
    ensures ks != [] && slotOf(ks[0]) in c.slots && slotOf(k) != slotOf(ks[0]) ==>
      Route(c, up, slotOf, has, q) == CrossSlot
  {
    hide Links;
    var all := Keys(q.commands);
    assert all[|ks|] == k;
    assert ks != [] ==> all[0] == ks[0];
  }

  /** getNodeByQuery, for a client whose EXEC, if any, closes a MULTI. */
  method GetNodeByQuery(c: Cluster, up: bool, slotOf: Key -> nat, has: set<Key>, q: Query) returns (r: Reply)
    requires Linked(c)
    ensures r == Route(c, up, slotOf, has, q)
  {
    hide Links, Route, Seen, Keys;
    var first: Option<Key> := None;
    var slot, leaving, coming, many, missing := 0, false, false, false, 0;
    ghost var ks: seq<Key> := [];
    SeenNothing(c, slotOf, has);
    assert q.commands[..0] == [];
    KeysNone();
    for i := 0 to |q.commands|
      invariant ks == Keys(q.commands[..i])
      invariant Seen(c, slotOf, has, ks, first, leaving, coming, many, missing)
      invariant first.Some? ==> slot == slotOf(first.value)
    {
      ghost var before := ks;
      for j := 0 to |q.commands[i]|
        invariant ks == before + q.commands[i][..j]
        invariant Seen(c, slotOf, has, ks, first, leaving, coming, many, missing)
        invariant first.Some? ==> slot == slotOf(first.value)
      {
        var k := q.commands[i][j];
        KeysAll(q.commands, i, j + 1);
        assert q.commands[i][..j + 1] == q.commands[i][..j] + [k];
        assert ks + [k] == before + q.commands[i][..j + 1];
        EarlyAnswer(c, up, slotOf, has, q, ks, k);
        SeenParts(c, slotOf, has, ks, first, leaving, coming, many, missing);
        if first.None? {
          first, slot := Some(k), slotOf(k);
          if slot !in c.slots { return Unbound; }
          if c.slots[slot] == c.me && slot in c.migrating { leaving := true; }
          else if slot in c.importing { coming := true; }
          SeenFirst(c, slotOf, has, k);
          assert ks + [k] == [k];
        } else {
          if first != Some(k) {
            if slot != slotOf(k) { return CrossSlot; }
          }
          SeenMore(c, slotOf, has, ks, first, leaving, coming, many, missing, k);
          many := many || first != Some(k);
        }
        if (leaving || coming) && k !in has { missing := missing + 1; }
        ks := ks + [k];
      }
      KeysPrefix(q.commands, i);
      assert q.commands[i][..|q.commands[i]|] == q.commands[i];
    }
    assert q.commands[..|q.commands|] == q.commands;
    SeenAll(c, up, slotOf, has, q, first, leaving, coming, many, missing);
    if first.None? { return Serve; }
    if !up { return Down; }
    if (leaving || coming) && q.migrate { return Serve; }
    if leaving && missing > 0 { return Ask(c.migrating[slot]); }
    if coming && q.asking {
      if many && missing > 0 { return TryAgain; } else { return Serve; }
    }
    var n := c.slots[slot];
    LinkedMe(c);
    if q.readOnly && !c.nodes[c.me].master && c.nodes[c.me].slaveof == Some(n) { return Serve; }
    if n != c.me { return Moved(n); }
    return Serve;
  }

  /** Once all keys are seen, what the loops have found decides the answer. */
  lemma SeenAll(
    c: Cluster, up: bool, slotOf: Key -> nat, has: set<Key>, q: Query,
    first: Option<Key>, leaving: bool, coming: bool, many: bool, missing: nat)
    requires Linked(c) && Seen(c, slotOf, has, Keys(q.commands), first, leaving, coming, many, missing)
    ensures var r := Route(c, up, slotOf, has, q);
      if first.None? then r == Serve
      else
        var j := slotOf(first.value);
        && j in c.slots && c.me in c.nodes && (leaving ==> j in c.migrating)
        && r == if !up then Down
           else if (leaving || coming) && q.migrate then Serve
           else if leaving && missing > 0 then Ask(c.migrating[j])
           else if coming && q.asking then (if many && missing > 0 then TryAgain else Serve)
           else if q.readOnly && !c.nodes[c.me].master && c.nodes[c.me].slaveof == Some(c.slots[j]) then Serve
           else if c.slots[j] == c.me then Serve else Moved(c.slots[j])
  {
    hide Links, Keys;
    LinkedMe(c);
  }
}
