/** The rewrite buffer carries out the steps of the rewrite protocol: filling it is the command
    event, draining it the send event, and writing it out at the end the done event. */
module AofSteps {
  import opened Wrappers
  import opened Memory
  import opened AofCodec
  import opened AofBuffer
  import opened AofReplay
  import opened AofRewrite

  /** The buffer holds what the model says the parent and the pipe hold. */
  ghost predicate Matches(buf: RewriteBuffer, w: Rewrite)
    reads buf
  {
    buf.Valid() && w.pending == Content(buf.blocks) && w.pipe == buf.pipe && w.stop == buf.stop
  }

  /** The calls of feedAppendOnlyFile that one command makes during a rewrite carry out the command event:
      the text goes to the end of the log and to the end of the buffer. */
  method FeedStep<Db>(ghost s: Server<Db>, ghost after: Db, ghost at: Clock, selected: Option<nat>, buf: RewriteBuffer,
                      d: nat, calls: seq<AofExpire.Call>, now: Clock)
    returns (text: Bytes, selected': Option<nat>)
    requires s.rewrite.Some? && Matches(buf, s.rewrite.value) && s.selected == selected
    requires d < |s.dbs| && calls != [] && forall c :: c in calls ==> AofExpire.ArityOk(c)
    modifies buf`blocks
    ensures var s' := Next(s, Command(d, AofExpire.TranslateAll(calls, now), after, at));
      s'.log == s.log + text && s'.selected == selected' && Matches(buf, s'.rewrite.value)
  {
    hide PrintAll, Content, Emit, Fits, AofExpire.Translate, AofExpire.TranslateAll, AofExpire.ArityOk;
    ghost var before := Content(buf.blocks);
    text, selected' := FeedText(selected, d, calls[0], now);
    buf.Append(text);
    assert calls[..1] == [calls[0]];
    AofExpire.TranslateOne(calls[0], now);
    for j := 1 to |calls|
      invariant buf.Valid() && selected' == Some(d) && Content(buf.blocks) == before + text
      invariant text == PrintAll(Emit(selected, d, AofExpire.TranslateAll(calls[..j], now)))
    {
      var more;
      more, selected' := FeedText(selected', d, calls[j], now);
      buf.Append(more);
      EmitMore(selected, d, calls, j, now);
      Associative(before, text, more);
      text := text + more;
    }
    assert calls[..|calls|] == calls;
  }

  lemma EmitMore(selected: Option<nat>, d: nat, calls: seq<AofExpire.Call>, j: nat, now: Clock)
    requires j < |calls| && forall c :: c in calls ==> AofExpire.ArityOk(c)
    ensures PrintAll(Emit(selected, d, AofExpire.TranslateAll(calls[..j + 1], now))) ==
      PrintAll(Emit(selected, d, AofExpire.TranslateAll(calls[..j], now)))
      + PrintAll(Emit(Some(d), d, AofExpire.Translate(calls[j], now)))
  {
    hide PrintAll, AofExpire.Translate, AofExpire.ArityOk;
    var cs := calls[..j + 1];
    assert cs[..|cs| - 1] == calls[..j] && cs[|cs| - 1] == calls[j];
    var a, b := AofExpire.TranslateAll(calls[..j], now), AofExpire.Translate(calls[j], now);
    var head := if selected != Some(d) then [Select(d)] else [];
    assert head + (a + b) == head + a + b && [] + b == b;
    PrintAllConcat(head + a, b);
  }

  /** aofChildWriteDiffData carries out the send event, for as many bytes as the pipe took. */
  method SendStep<Db>(ghost s: Server<Db>, buf: RewriteBuffer, answers: seq<int>) returns (ghost n: nat)
    requires s.rewrite.Some? && Matches(buf, s.rewrite.value) && |answers| > |s.rewrite.value.pending|
    modifies buf`blocks, buf`pipe
    ensures n <= |s.rewrite.value.pending| && (s.rewrite.value.stop ==> n == 0)
    ensures Matches(buf, Next(s, Send(n)).rewrite.value)
  {
    hide Content, Fits;
    ghost var w := s.rewrite.value;
    buf.SendDiff(answers);
    n := Moved(w.pipe, w.pending, buf.pipe, Content(buf.blocks));
  }

  lemma Moved(pipe: Bytes, pending: Bytes, pipe': Bytes, pending': Bytes) returns (n: nat)
    requires pipe' + pending' == pipe + pending && pipe <= pipe'
    ensures n <= |pending| && pipe' == pipe + pending[..n] && pending' == pending[n..] && (pipe' == pipe ==> n == 0)
  {
    n := |pipe'| - |pipe|;
    var all := pipe + pending;
    assert |pipe'| + |pending'| == |all|;
    assert pipe' == all[..|pipe'|] by { assert pipe' == (pipe' + pending')[..|pipe'|]; }
    assert pending' == all[|pipe'|..] by { assert pending' == (pipe' + pending')[|pipe'|..]; }
    assert all[..|pipe'|] == pipe + pending[..n] && all[|pipe'|..] == pending[n..];
  }

  /** aofRewriteBufferWrite at the end of a rewrite leaves the log of the done event. */
  method DoneStep<Db>(ghost s: Server<Db>, buf: RewriteBuffer, file: Bytes, answers: seq<int>)
    returns (ok: bool, r: Bytes)
    requires s.rewrite.Some? && Matches(buf, s.rewrite.value) && s.rewrite.value.phase == Finished
    requires s.rewrite.value.file == file && |answers| >= |buf.blocks|
    ensures ok ==> r == Next(s, Done(true)).log
  {
    hide Content, Fits;
    ok, r := buf.WriteTo(file, answers);
  }
}
