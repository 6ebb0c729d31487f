/** Which script a batch is evaluated with. */
module ProtocolScripts {
  import opened Prelude
  import opened MailStore
  import opened Types
  import opened Commands
  import opened SieveEngine
  import opened ScriptLoader
  import opened Protocol

  // ---------- the script in place has compiled ----------

  /** The event reads a text and compiles it. */
  predicate Compiles(e: Happening, script: CompiledScript) {
    (e.Launch? || e.Reload?) && e.text.Some? && e.compiles && script == CompiledScript(e.text.value)
  }

  ghost predicate HasCompiled(es: seq<Happening>, script: CompiledScript) {
    exists k :: 0 <= k < |es| && Compiles(es[k], script)
  }

  lemma HasCompiledLater(es: seq<Happening>, e: Happening, script: CompiledScript)
    requires HasCompiled(es, script) || Compiles(e, script)
    ensures HasCompiled(es + [e], script)
  {
    if HasCompiled(es, script) {
      var k :| 0 <= k < |es| && Compiles(es[k], script);
      assert (es + [e])[k] == es[k];
    } else {
      assert (es + [e])[|es|] == e;
    }
  }

  lemma NextScript(cfg: Settings, s: Sys, e: Happening)
    requires Alive(Next(cfg, s, e))
    ensures Compiles(e, Next(cfg, s, e).script) || (Alive(s) && Next(cfg, s, e).script == s.script)
  {
    if e.Process? && Fits(s, e) {
      assert OnProcessed(cfg, s, RunAt(cfg, s, e.time), e.fates).script == s.script;
    }
  }

  /** In every run of a process the handle holds the compilation of some text that an
      event of the run read and compiled. */
  lemma {:induction false} ScriptHasCompiled(cfg: Settings, s: Sys, es: seq<Happening>, n: nat)
    requires !Alive(s) && n <= |es|
    ensures Alive(After(cfg, s, es[..n])) ==> HasCompiled(es[..n], After(cfg, s, es[..n]).script)
    decreases n
  {
    if n == 0 {
      assert es[..n] == [];
    } else {
      var before, e := es[..n - 1], es[n - 1];
      var f := After(cfg, s, before);
      ScriptHasCompiled(cfg, s, es, n - 1);
      assert es[..n] == before + [e] && [e][1..] == [];
      AfterConcat(cfg, s, before, [e]);
      assert After(cfg, f, [e]) == Next(cfg, f, e);
      if Alive(Next(cfg, f, e)) {
        NextScript(cfg, f, e);
        HasCompiledLater(before, e, Next(cfg, f, e).script);
      }
    }
  }

  /** The script that the last successful launch or reload of a run compiled. */
  function LastCompiled(cfg: Settings, s: Sys, script: CompiledScript, es: seq<Happening>): CompiledScript
    decreases |es|
  {
    if es == [] then script
    else
      var e := es[0];
      var takes := if e.Reload? then Alive(s) else e.Launch? && !Alive(s);
      LastCompiled(cfg, Next(cfg, s, e),
                   if takes && e.text.Some? && e.compiles then CompiledScript(e.text.value) else script, es[1..])
  }

  lemma NextTakesScript(cfg: Settings, s: Sys, e: Happening)
    ensures var takes := if e.Reload? then Alive(s) else e.Launch? && !Alive(s);
            Next(cfg, s, e).script ==
            if takes && e.text.Some? && e.compiles then CompiledScript(e.text.value) else s.script
  {
    if e.Process? && Fits(s, e) { ProcessedShape(cfg, s, RunAt(cfg, s, e.time), e.fates); }
  }

  /** In every run the handle holds what the last successful launch or reload compiled. */
  lemma {:induction false} HandleHoldsLastCompiled(cfg: Settings, s: Sys, es: seq<Happening>)
    ensures After(cfg, s, es).script == LastCompiled(cfg, s, s.script, es)
    decreases |es|
  {
    if es != [] {
      NextTakesScript(cfg, s, es[0]);
      HandleHoldsLastCompiled(cfg, Next(cfg, s, es[0]), es[1..]);
    }
  }

  // ---------- one script per batch ----------

  /** The result is that of evaluating this message with this script, at some time. */
  ghost predicate ResultOf(cfg: Settings, script: CompiledScript, ctx: MessageContext, r: ProcessingResult) {
    exists time: nat :: Explains(Evaluation(ctx.content, cfg.runtime(script, ctx.content, time)), ctx.uid, r)
  }

  predicate Explains(evaluated: Result<seq<SieveAction>, string>, uid: Uid, r: ProcessingResult) {
    && r.uid == uid
    && match evaluated
       case Failure(e) => r.actions == [Keep] && r.status == SieveError(e)
       case Success(actions) => r.actions == actions && !r.status.SieveError?
  }

  ghost predicate ByScript(cfg: Settings, script: CompiledScript, queue: seq<MessageContext>, r: ProcessingResult) {
    exists i :: 0 <= i < |queue| && ResultOf(cfg, script, queue[i], r)
  }

  /** The batch at work is this one, and the actions to be recorded are the script's. */
  ghost predicate OnBatch(cfg: Settings, script: CompiledScript, queue: seq<MessageContext>, p: Point) {
    && (p.InBatch? || p.Committing? ==>
          p.batch.script == script && p.batch.queue == queue && p.batch.done < |queue|)
    && (p.Committing? ==> ResultOf(cfg, script, queue[p.batch.done],
                                   ProcessingResult(queue[p.batch.done].uid, p.actions, Processed)))
  }

  ghost predicate AllByScript(cfg: Settings, script: CompiledScript, queue: seq<MessageContext>,
                              before: seq<ProcessingResult>, s: Sys)
  {
    && before <= s.hist.results
    && (forall i :: |before| <= i < |s.hist.results| ==> ByScript(cfg, script, queue, s.hist.results[i]))
    && OnBatch(cfg, script, queue, s.point)
  }

  lemma ProcessedByScript(cfg: Settings, script: CompiledScript, queue: seq<MessageContext>,
                          before: seq<ProcessingResult>, s: Sys, time: nat, fates: seq<Fate>)
    requires AllByScript(cfg, script, queue, before, s) && s.point.InBatch?
    ensures AllByScript(cfg, script, queue, before, OnProcessed(cfg, s, RunAt(cfg, s, time), fates))
  {
    var s', ctx := OnProcessed(cfg, s, RunAt(cfg, s, time), fates), queue[s.point.batch.done];
    var evaluated := Evaluation(ctx.content, cfg.runtime(script, ctx.content, time));
    if s'.point.Committing? {
      assert s'.hist.results == s.hist.results && s'.point.batch == s.point.batch;
      assert Explains(evaluated, ctx.uid, ProcessingResult(ctx.uid, s'.point.actions, Processed));
    } else {
      var r := s'.hist.results[|s.hist.results|];
      assert s'.hist.results == s.hist.results + [r] && s'.point.Idling?;
      assert Explains(evaluated, ctx.uid, r);
      assert ResultOf(cfg, script, ctx, r);
    }
  }

  lemma SavedByScript(cfg: Settings, script: CompiledScript, queue: seq<MessageContext>,
                      before: seq<ProcessingResult>, s: Sys, ok: bool)
    requires AllByScript(cfg, script, queue, before, s) && Fits(s, Persisted(ok))
    ensures AllByScript(cfg, script, queue, before, OnPersisted(s, ok))
  {
    if ok && s.point.Committing? {
      var r := ProcessingResult(queue[s.point.batch.done].uid, s.point.actions, Processed);
      assert OnPersisted(s, ok).hist.results == s.hist.results + [r];
      assert ByScript(cfg, script, queue, r);
    }
  }

  lemma NextByScript(cfg: Settings, script: CompiledScript, queue: seq<MessageContext>,
                     before: seq<ProcessingResult>, s: Sys, e: Happening)
    requires AllByScript(cfg, script, queue, before, s) && !e.FetchReply? && !e.Launch?
    ensures AllByScript(cfg, script, queue, before, Next(cfg, s, e))
  {
    if e.Process? && Fits(s, e) {
      ProcessedByScript(cfg, script, queue, before, s, e.time, e.fates);
    } else if e.Persisted? && Fits(s, e) {
      SavedByScript(cfg, script, queue, before, s, e.ok);
    }
  }

  /** No fetch is answered, and no process starts. */
  predicate NoOtherBatch(es: seq<Happening>) {
    forall i :: 0 <= i < |es| ==> !es[i].FetchReply? && !es[i].Launch?
  }

  lemma {:induction false} AlwaysByScript(cfg: Settings, script: CompiledScript, queue: seq<MessageContext>,
                                          before: seq<ProcessingResult>, s: Sys, es: seq<Happening>)
    requires AllByScript(cfg, script, queue, before, s) && NoOtherBatch(es)
    ensures AllByScript(cfg, script, queue, before, After(cfg, s, es))
    decreases |es|
  {
    if es != [] {
      assert !es[0].FetchReply? && !es[0].Launch?;
      NextByScript(cfg, script, queue, before, s, es[0]);
      AlwaysByScript(cfg, script, queue, before, Next(cfg, s, es[0]), es[1..]);
    }
  }

  /** However reloads fall before and within a batch: all its results, up to the next
      fetch, are those of evaluating messages it fetched with one script, the one in the
      handle at its fetch, and some event before had compiled that script. */
  lemma OneScriptPerBatch(cfg: Settings, s0: Sys, es: seq<Happening>, later: seq<Happening>, i: nat)
    requires !Alive(s0) && After(cfg, s0, es).point.AwaitingFetch? && After(cfg, s0, es).mem.lastSeenUid.Some?
    requires NoOtherBatch(later)
    requires var s := After(cfg, s0, es);
             |s.hist.results| <= i < |After(cfg, Next(cfg, s, FetchReply(true)), later).hist.results|
    ensures var s := After(cfg, s0, es);
            var queue := Truncate(NextFetch(cfg, s), cfg.batchSize);
            && HasCompiled(es, s.script)
            && ByScript(cfg, s.script, queue, After(cfg, Next(cfg, s, FetchReply(true)), later).hist.results[i])
  {
    var s := After(cfg, s0, es);
    ScriptHasCompiled(cfg, s0, es, |es|);
    assert es[..|es|] == es;
    AlwaysByScript(cfg, s.script, Truncate(NextFetch(cfg, s), cfg.batchSize), s.hist.results,
                   Next(cfg, s, FetchReply(true)), later);
  }
}
