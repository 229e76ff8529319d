/** Writing the append-only file: full, short and failed writes lose and repeat nothing. */
module AofFlush {
  import opened Memory
  import opened AofCodec

  datatype Policy = No | EverySec | Always

  /** One call: whether there is anything to write, whether it is forced, whether a background fsync is going
      on, and the time. */
  datatype Call = Call(pending: bool, force: bool, syncing: bool, now: int)

  /** The call waits for the background fsync, having postponed the write at `since`, or not at all if 0. */
  predicate Waits(policy: Policy, since: int, c: Call) {
    c.pending && policy == EverySec && !c.force && c.syncing && (since == 0 || c.now - since < 2)
  }

  /** The time since which the write is postponed after the call: kept when there is nothing to write, set by
      the first call that waits, and cleared by every attempt to write. */
  predicate Follows(policy: Policy, since: int, c: Call, since': int) {
    if !c.pending then since' == since
    else if Waits(policy, since, c) then since' == if since == 0 then c.now else since
    else since' == 0
  }

  class Aof {
    const policy: Policy
    var file: Bytes           // what the operating system holds
    var buf: Bytes            // aof_buf
    var currentSize: nat
    var writable: bool        // aof_last_write_status
    var postponed: int        // aof_flush_postponed_start
    ghost var fed: Bytes      // everything appended so far

    ghost predicate Valid()
      reads this
    {
      file + buf == fed && currentSize == |file|
    }

    constructor (policy: Policy)
      ensures Valid() && fed == [] && this.policy == policy
    {
      this.policy := policy;
      file, buf, currentSize, writable, postponed, fed := [], [], 0, true, 0, [];
    }

    /** The end of feedAppendOnlyFile. */
    method Feed(b: Bytes)
      requires Valid()
      modifies this`buf, this`fed
      ensures Valid() && fed == old(fed) + b && buf == old(buf) + b
    {
      assert file + (buf + b) == fed + b;
      buf, fed := buf + b, fed + b;
    }

    /** flushAppendOnlyFile. The operating system decides how many bytes are written, -1 being
        an error, and whether a truncation works. exited says that the server gave up, which it
        does only when every write was promised to be on disk. */
    method Flush(force: bool, syncing: bool, now: int, written: int, truncates: bool) returns (exited: bool)
      requires Valid() && -1 <= written <= |buf|
      modifies this`file, this`buf, this`currentSize, this`writable, this`postponed
      ensures !exited ==> Valid()
      ensures exited ==> policy == Always && old(file) <= file <= fed
      ensures var waits := policy == EverySec && !force && syncing && (old(postponed) == 0 || now < old(postponed) + 2);
        && (old(buf) == [] ==> postponed == old(postponed))
        && (old(buf) != [] && waits ==> postponed == if old(postponed) == 0 then now else old(postponed))
        && (old(buf) != [] && !waits ==> postponed == 0)
      ensures Follows(policy, old(postponed), Call(old(buf) != [], force, syncing, now), postponed)
      ensures old(buf) == [] || old(Waits(policy, postponed, Call(true, force, syncing, now))) ==>
        !exited && file == old(file) && buf == old(buf) && writable == old(writable)
      ensures old(buf) != [] && !old(Waits(policy, postponed, Call(true, force, syncing, now))) ==>
        if written == |old(buf)| then !exited && buf == [] && file == fed && writable
        else if policy == Always then exited
        else !exited && !writable && |file| == |old(file)| + if truncates || written < 0 then 0 else written
    {
      if |buf| == 0 { return false; }
      if policy == EverySec && !force && syncing {
        if postponed == 0 {
          postponed := now;
          return false;
        } else if now - postponed < 2 {
          return false;
        }
      }
      var nwritten := written;
      if nwritten > 0 {
        assert file + buf[..nwritten] + buf[nwritten..] == fed;
        file := file + buf[..nwritten];
      }
      postponed := 0;
      if nwritten != |buf| {
        if nwritten != -1 && truncates {
          file := file[..currentSize];
          assert file == old(file);
          nwritten := -1;
        }
        if policy == Always {
          assert file + (if nwritten == -1 then buf else buf[nwritten..]) == fed;
          return true;
        }
        writable := false;
        if nwritten > 0 {
          currentSize := currentSize + nwritten;
          buf := buf[nwritten..];
        }
        return false;
      }
      writable := true;
      assert buf[..nwritten] == buf;
      currentSize := currentSize + nwritten;
      buf := [];
      return false;
    }
  }

  // ---- sequences of calls ----

  /** The calls made under a policy, in order, and the time since which the write is postponed before each call
      and after the last. */
  ghost predicate Calls(policy: Policy, cs: seq<Call>, ss: seq<int>) {
    && |ss| == |cs| + 1 && ss[0] == 0
    && forall i :: 0 <= i < |cs| ==> Follows(policy, ss[i], cs[i], ss[i + 1])
  }

  /** The clock is past zero and does not go back. */
  predicate Clock(cs: seq<Call>) {
    && (forall i :: 0 <= i < |cs| ==> 0 < cs[i].now)
    && forall i, j :: 0 <= i < j < |cs| ==> cs[i].now <= cs[j].now
  }

  /** Call j attempts the write. */
  predicate Writes(policy: Policy, cs: seq<Call>, ss: seq<int>, j: nat)
    requires j < |cs| < |ss|
  {
    cs[j].pending && !Waits(policy, ss[j], cs[j])
  }

  /** The time since which the write is postponed is that of an earlier call. */
  lemma {:induction false} SinceIsPast(policy: Policy, cs: seq<Call>, ss: seq<int>, i: nat)
    requires Calls(policy, cs, ss) && Clock(cs) && i < |cs|
    ensures 0 <= ss[i] <= cs[i].now
  {
    if i > 0 {
      SinceIsPast(policy, cs, ss, i - 1);
    }
  }

  /** While no write is attempted, the postponement goes on from the first call that waited. */
  lemma {:induction false} SinceStays(policy: Policy, cs: seq<Call>, ss: seq<int>, i: nat, k: nat)
    requires Calls(policy, cs, ss) && i < k < |ss| && cs[i].now != 0 && Waits(policy, ss[i], cs[i])
    requires forall j :: i < j < k ==> !Writes(policy, cs, ss, j)
    ensures ss[k] == if ss[i] == 0 then cs[i].now else ss[i]
  {
    if k > i + 1 {
      SinceStays(policy, cs, ss, i, k - 1);
      assert !Writes(policy, cs, ss, k - 1);
    }
  }

  /** After the first call that waits, and until a write is attempted, a call waits exactly when it is made
      less than two seconds later, with the fsync still going on, and is not forced. */
  lemma WaitsExactly(policy: Policy, cs: seq<Call>, ss: seq<int>, i: nat, k: nat)
    requires Calls(policy, cs, ss) && i < k < |cs| && cs[i].now != 0 && ss[i] == 0 && Waits(policy, ss[i], cs[i])
    requires cs[k].pending && forall j :: i < j < k ==> !Writes(policy, cs, ss, j)
    ensures Writes(policy, cs, ss, k) <==> cs[k].force || !cs[k].syncing || cs[i].now + 2 <= cs[k].now
  {
    SinceStays(policy, cs, ss, i, k);
  }

  /** No write is put off for two seconds: over every sequence of calls, one that finds something to write two
      seconds after a call that waited attempts the write, unless one in between has done so. */
  lemma WriteIsDue(policy: Policy, cs: seq<Call>, ss: seq<int>, i: nat, k: nat)
    requires Calls(policy, cs, ss) && Clock(cs) && i < k < |cs| && Waits(policy, ss[i], cs[i])
    requires cs[k].pending && cs[i].now + 2 <= cs[k].now
    ensures exists j :: i < j <= k && Writes(policy, cs, ss, j)
  {
    if forall j :: i < j < k ==> !Writes(policy, cs, ss, j) {
      SinceIsPast(policy, cs, ss, i);
      SinceStays(policy, cs, ss, i, k);
      assert Writes(policy, cs, ss, k);
    }
  }

  /** A clock that reads zero is mistaken for no postponement: the call two seconds later waits again. */
  lemma ZeroClock(k: int)
    requires 2 <= k
    ensures var cs := [Call(true, false, true, 0), Call(true, false, true, k)];
      Calls(EverySec, cs, [0, 0, k]) && !Writes(EverySec, cs, [0, 0, k], 1)
  {
  }

  /** Whatever has reached the disk, a restart recovers exactly the commands that are complete. */
  lemma RestartRecovers(cmds: seq<Argv>, file: Bytes)
    requires forall i :: 0 <= i < |cmds| ==> Printable(cmds[i])
    requires file <= PrintAll(cmds)
    ensures Load(file).cmds == cmds[..Complete(cmds, |file|)] && Load(file).status != Corrupt
    ensures Load(file).valid == |PrintAll(cmds[..Complete(cmds, |file|)])|
  {
    hide Printable, Load;
    PrefixTheorem(cmds, |file|);
    assert file == PrintAll(cmds)[..|file|];
  }
}
