/** The rewrite buffer: a list of fixed-size blocks that the parent fills and drains while a
    child rewrites the append-only file. */
module AofBuffer {
  import opened Memory

  const BLOCK: nat := 10485760

  /** The used bytes of a block, and how many more the server believes fit behind them. */
  datatype Block = Block(data: Bytes, free: nat)

  /** Draining a block moves its data to the front without giving the room back, so data and
      free room never exceed the block. */
  predicate Fits(blocks: seq<Block>) {
    forall i :: 0 <= i < |blocks| ==> |blocks[i].data| + blocks[i].free <= BLOCK
  }

  /** The buffered bytes in order. */
  function Content(blocks: seq<Block>): Bytes {
    if blocks == [] then [] else blocks[0].data + Content(blocks[1..])
  }

  lemma {:induction false} ContentSnoc(blocks: seq<Block>, b: Block)
    ensures Content(blocks + [b]) == Content(blocks) + b.data
  {
    if blocks == [] {
      assert blocks + [b] == [b];
      assert Content([b]) == b.data + Content([]) by { assert [b][1..] == []; }
    } else {
      assert (blocks + [b])[1..] == blocks[1..] + [b];
      ContentSnoc(blocks[1..], b);
    }
  }

  lemma ContentLast(blocks: seq<Block>, b: Block)
    requires blocks != []
    ensures Content(blocks) == Content(blocks[..|blocks| - 1]) + blocks[|blocks| - 1].data
    ensures Content(blocks[|blocks| - 1 := b]) == Content(blocks[..|blocks| - 1]) + b.data
  {
    var n := |blocks| - 1;
    assert blocks == blocks[..n] + [blocks[n]];
    assert blocks[n := b] == blocks[..n] + [b];
    ContentSnoc(blocks[..n], blocks[n]);
    ContentSnoc(blocks[..n], b);
  }

  class RewriteBuffer {
    var blocks: seq<Block>
    var stop: bool          // aof_stop_sending_diff
    var pipe: Bytes         // sent to the child and not yet read

    ghost predicate Valid()
      reads this
    {
      Fits(blocks)
    }

    constructor ()
      ensures Valid() && Content(blocks) == [] && pipe == [] && !stop
    {
      blocks, stop, pipe := [], false, [];
    }

    /** aofRewriteBufferAppend: no write goes past the end of a block. */
    method Append(s: Bytes)
      requires Valid()
      modifies this`blocks
      ensures Valid() && Content(blocks) == old(Content(blocks)) + s
    {
      hide Content, Fits;
      var at := 0;
      assert Content(blocks) == old(Content(blocks)) + s[..0];
      while at < |s|
        invariant 0 <= at <= |s| && Fits(blocks)
        invariant Content(blocks) == old(Content(blocks)) + s[..at]
        invariant at > 0 && at < |s| ==> blocks != [] && blocks[|blocks| - 1].free > 0
        decreases |s| - at, if blocks == [] || blocks[|blocks| - 1].free == 0 then 1 else 0
      {
        if blocks != [] {
          var n := |blocks| - 1;
          var b := blocks[n];
          var len := if b.free < |s| - at then b.free else |s| - at;
          if len > 0 {
            Filled(blocks, s[at..at + len]);
            SliceNext(old(Content(blocks)), s, at, len);
            blocks := blocks[n := Block(b.data + s[at..at + len], b.free - len)];
            at := at + len;
          }
        }
        if at < |s| {
          Extended(blocks);
          blocks := blocks + [Block([], BLOCK)];
        }
      }
      assert s[..at] == s;
    }

    /** aofChildWriteDiffData, where answers says how many bytes each write accepts, 0 or less
        being a full pipe or an error. Bytes go to the pipe in order, or stay. */
    method SendDiff(answers: seq<int>)
      requires Valid() && |answers| > |Content(blocks)|
      modifies this`blocks, this`pipe
      ensures Valid() && pipe + Content(blocks) == old(pipe + Content(blocks))
      ensures old(pipe) <= pipe && (stop ==> pipe == old(pipe))
      ensures !stop && (forall i :: 0 <= i < |answers| ==> answers[i] > 0) ==> blocks == []
    {
      hide Fits, Content;
      ghost var all := pipe + Content(blocks);
      var i := 0;
      while blocks != [] && !stop
        invariant Fits(blocks) && pipe + Content(blocks) == all && old(pipe) <= pipe && (stop ==> pipe == old(pipe))
        invariant 0 <= i && i + |Content(blocks)| < |answers|
        decreases |Content(blocks)|, |blocks|
      {
        var b := blocks[0];
        FitsRest(blocks);
        DropEmpty(blocks);
        if |b.data| > 0 {
          var n := answers[i];
          i := i + 1;
          if n <= 0 { return; }
          if n > |b.data| { n := |b.data|; }
          DrainFirst(blocks, n);
          assert pipe + (b.data[..n] + Content(blocks[0 := Block(b.data[n..], b.free)])) == all;
          pipe := pipe + b.data[..n];
          blocks := blocks[0 := Block(b.data[n..], b.free)];
        }
        if |blocks[0].data| == 0 {
          FitsRest(blocks);
          DropEmpty(blocks);
          blocks := blocks[1..];
        }
      }
    }

    /** aofRewriteBufferWrite: on success the whole buffer has been appended to the file. */
    method WriteTo(file: Bytes, answers: seq<int>) returns (ok: bool, r: Bytes)
      requires |answers| >= |blocks|
      ensures ok ==> r == file + Content(blocks)
      ensures file <= r <= file + Content(blocks)
      ensures (forall i :: 0 <= i < |blocks| ==> answers[i] == |blocks[i].data|) ==> ok
    {
      hide Content;
      r := file;
      WholeContent(blocks);
      for i := 0 to |blocks|
        invariant r == file + Content(blocks[..i])
      {
        var b := blocks[i];
        ContentUpTo(blocks, i);
        if |b.data| > 0 {
          var n := answers[i];
          if n != |b.data| {
            if 0 < n < |b.data| { r := r + b.data[..n]; }
            return false, r;
          }
          r := r + b.data;
        }
      }
      ok := true;
    }
  }

  lemma WholeContent(blocks: seq<Block>)
    ensures Content(blocks[..0]) == [] && blocks[..|blocks|] == blocks
  {
  }

  lemma ContentUpTo(blocks: seq<Block>, i: nat)
    requires i < |blocks|
    ensures Content(blocks[..i + 1]) == Content(blocks[..i]) + blocks[i].data
    ensures Content(blocks[..i + 1]) <= Content(blocks)
  {
    hide Content;
    TakeNext(blocks, i);
    ContentSnoc(blocks[..i], blocks[i]);
    ContentPrefix(blocks, i + 1);
  }

  lemma TakeNext(blocks: seq<Block>, i: nat)
    requires i < |blocks|
    ensures blocks[..i + 1] == blocks[..i] + [blocks[i]]
  {
  }

  lemma ContentPrefix(blocks: seq<Block>, i: nat)
    requires i <= |blocks|
    ensures Content(blocks[..i]) <= Content(blocks)
  {
    hide Content;
    ContentSplit(blocks, i);
    IsPrefix(Content(blocks[..i]), Content(blocks[i..]));
  }

  lemma IsPrefix(a: Bytes, b: Bytes)
    ensures a <= a + b
  {
  }

  lemma {:induction false} ContentSplit(blocks: seq<Block>, i: nat)
    requires i <= |blocks|
    ensures Content(blocks) == Content(blocks[..i]) + Content(blocks[i..])
  {
    if i > 0 {
      ContentSplit(blocks[1..], i - 1);
      assert blocks[..i][1..] == blocks[1..][..i - 1];
      assert blocks[i..] == blocks[1..][i - 1..];
      Associative(blocks[0].data, Content(blocks[..i][1..]), Content(blocks[i..]));
    } else {
      assert blocks[0..] == blocks;
    }
  }

  lemma SliceNext(c: Bytes, s: Bytes, at: nat, len: nat)
    requires at + len <= |s|
    ensures |s[at..at + len]| == len && c + s[..at] + s[at..at + len] == c + s[..at + len]
  {
    assert s[..at + len] == s[..at] + s[at..at + len];
  }

  /** Writing t behind the data of the last block. */
  lemma Filled(blocks: seq<Block>, t: Bytes)
    requires Fits(blocks) && blocks != [] && |t| <= blocks[|blocks| - 1].free
    ensures var n := |blocks| - 1;
      var u := blocks[n := Block(blocks[n].data + t, blocks[n].free - |t|)];
      Content(u) == Content(blocks) + t && Fits(u)
  {
    hide Content, Fits;
    var n := |blocks| - 1;
    ContentLast(blocks, Block(blocks[n].data + t, blocks[n].free - |t|));
    FitsAppend(blocks, n, t);
    assert Content(blocks[..n]) + (blocks[n].data + t) == Content(blocks[..n]) + blocks[n].data + t;
  }

  /** Adding a block. */
  lemma Extended(blocks: seq<Block>)
    requires Fits(blocks)
    ensures Content(blocks + [Block([], BLOCK)]) == Content(blocks) && Fits(blocks + [Block([], BLOCK)])
  {
    hide Content, Fits;
    ContentSnoc(blocks, Block([], BLOCK));
    FitsMore(blocks);
    assert Content(blocks) + [] == Content(blocks);
  }

  lemma FitsAppend(blocks: seq<Block>, n: nat, s: Bytes)
    requires Fits(blocks) && n < |blocks| && |s| <= blocks[n].free
    ensures Fits(blocks[n := Block(blocks[n].data + s, blocks[n].free - |s|)])
  {
  }

  lemma FitsMore(blocks: seq<Block>)
    requires Fits(blocks)
    ensures Fits(blocks + [Block([], BLOCK)])
  {
  }

  lemma DropEmpty(blocks: seq<Block>)
    requires blocks != []
    ensures |blocks[0].data| == 0 ==> Content(blocks) == Content(blocks[1..])
    ensures |Content(blocks)| >= |blocks[0].data|
  {
    var rest := Content(blocks[1..]);
    assert Content(blocks) == blocks[0].data + rest;
    assert [] + rest == rest;
  }

  lemma FitsRest(blocks: seq<Block>)
    requires Fits(blocks) && blocks != []
    ensures Fits(blocks[1..])
    ensures forall n :: 0 <= n <= |blocks[0].data| ==> Fits(blocks[0 := Block(blocks[0].data[n..], blocks[0].free)])
  {
  }

  lemma DrainFirst(blocks: seq<Block>, n: nat)
    requires blocks != [] && n <= |blocks[0].data|
    ensures Content(blocks) == blocks[0].data[..n] + Content(blocks[0 := Block(blocks[0].data[n..], blocks[0].free)])
  {
    var d, rest := blocks[0].data, Content(blocks[1..]);
    var u := blocks[0 := Block(d[n..], blocks[0].free)];
    assert u[1..] == blocks[1..];
    assert Content(blocks) == d + rest && Content(u) == d[n..] + rest;
    assert d + rest == d[..n] + (d[n..] + rest);
  }
}
