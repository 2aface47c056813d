/** The verbose agent loop, the worker and the bridge's filter together: what of a run's text
    reaches the desktop as progress. */
module VerboseStream {
  import opened Text
  import opened FenceFilter
  import opened StreamPump
  import opened AgentLoop

  /** The chunks among the loop's effects. */
  function Chunks(es: seq<Effect>): seq<Chunk> {
    if es == [] then [] else (if es[0].Yield? then [es[0].chunk] else []) + Chunks(es[1..])
  }

  lemma {:induction false} ChunksAppend(a: seq<Effect>, b: seq<Effect>)
    ensures Chunks(a + b) == Chunks(a) + Chunks(b)
  {
    if a == [] {
      assert a + b == b;
    } else {
      assert (a + b)[1..] == a[1..] + b;
      ChunksAppend(a[1..], b);
      var head := if a[0].Yield? then [a[0].chunk] else [];
      assert Chunks(a + b) == head + Chunks(a[1..] + b);
      assert head + (Chunks(a[1..]) + Chunks(b)) == (head + Chunks(a[1..])) + Chunks(b);
    }
  }

  function Spoken(es: seq<Effect>): string {
    TextOf(Chunks(es))
  }

  lemma SpokenAppend(a: seq<Effect>, b: seq<Effect>)
    ensures Spoken(a + b) == Spoken(a) + Spoken(b)
  {
    ChunksAppend(a, b);
    TextOfAppend(Chunks(a), Chunks(b));
  }

  lemma {:induction false} SpokenPieces(texts: seq<string>)
    ensures Spoken(Pieces(texts)) == Concat(texts)
  {
    if texts != [] {
      assert Pieces(texts)[1..] == Pieces(texts[1..]);
      SpokenPieces(texts[1..]);
    }
  }

  // ---------- what is meant to be seen ----------

  /** A stretch of the run's text: meant for the user, or a tool's output. */
  datatype Segment = Shown(text: string) | Hidden(text: string)

  function CallSegments(call: Call): seq<Segment> {
    [Shown(call.banner)] + if call.output == [] then [] else [Hidden(Concat(call.output))]
  }

  function CallsSegments(calls: seq<Call>): seq<Segment> {
    if calls == [] then []
    else CallSegments(calls[0]) + (if calls[0].outcome == GoOn then CallsSegments(calls[1..]) else [])
  }

  function TurnSegments(t: Turn, turn: nat): seq<Segment> {
    [Shown(TurnBanner(turn) + Concat(t.reply) + "\n\n")] + CallsSegments(t.calls)
  }

  function LoopSegments(script: seq<Turn>, turn: nat, limit: nat, hooks: nat): seq<Segment>
    requires Enough(script, limit)
    decreases |script| - turn
  {
    if turn >= limit then []
    else
      var t := script[turn];
      var limit', hooks' := CallsLimit(t.calls, limit), CallsHooks(t.calls, hooks);
      TurnSegments(t, turn + 1) +
      match CallsOutcome(t.calls)
      case GoOn => LoopSegments(script, turn + 1, limit', hooks')
      case Exit => []
      case Finish => if hooks' == 0 then [] else LoopSegments(script, turn + 1, limit', hooks' - 1)
  }

  function ShownText(segments: seq<Segment>): string {
    if segments == [] then ""
    else (if segments[0].Shown? then segments[0].text else "") + ShownText(segments[1..])
  }

  function Render(segments: seq<Segment>): string {
    if segments == [] then ""
    else (match segments[0] case Shown(t) => t case Hidden(t) => FENCE + t + FENCE) + Render(segments[1..])
  }

  lemma {:induction false} RenderAppend(a: seq<Segment>, b: seq<Segment>)
    ensures Render(a + b) == Render(a) + Render(b)
  {
    if a == [] {
      assert a + b == b;
    } else {
      assert (a + b)[1..] == a[1..] + b;
      RenderAppend(a[1..], b);
      var head := match a[0] case Shown(t) => t case Hidden(t) => FENCE + t + FENCE;
      assert Render(a + b) == head + Render(a[1..] + b);
      assert head + (Render(a[1..]) + Render(b)) == (head + Render(a[1..])) + Render(b);
    }
  }

  /** The shown and hidden stretches in turn, neighbouring shown segments joined. */
  function Alternating(segments: seq<Segment>): (stretches: seq<string>)
    ensures |stretches| % 2 == 1
  {
    if segments == [] then [""]
    else
      var rest := Alternating(segments[1..]);
      match segments[0]
      case Shown(t) => [t + rest[0]] + rest[1..]
      case Hidden(t) => ["", t] + rest
  }

  lemma {:induction false} AlternatingIsRender(segments: seq<Segment>)
    ensures Fenced(FENCE, Alternating(segments)) == Render(segments)
    ensures VisibleStretches(Alternating(segments), false) == ShownText(segments)
  {
    if segments != [] {
      AlternatingIsRender(segments[1..]);
      var rest := Alternating(segments[1..]);
      match segments[0] {
      case Shown(t) =>
        GrowFirst(t, rest);
      case Hidden(t) =>
        var all := Alternating(segments);
        assert all[1..] == [t] + rest && all[1..][1..] == rest;
        assert Fenced(FENCE, all[1..]) == t + FENCE + Fenced(FENCE, rest);
        assert "" + FENCE + (t + FENCE + Fenced(FENCE, rest)) == FENCE + t + FENCE + Fenced(FENCE, rest);
        assert VisibleStretches(all[1..], true) == "" + VisibleStretches(rest, false);
      }
    }
  }

  lemma GrowFirst(t: string, rest: seq<string>)
    requires rest != []
    ensures var grown := [t + rest[0]] + rest[1..];
            && Fenced(FENCE, grown) == t + Fenced(FENCE, rest)
            && VisibleStretches(grown, false) == t + VisibleStretches(rest, false)
  {
    GrowFenced(FENCE, t, rest[0], rest[1..]);
    GrowVisible(t, rest[0], rest[1..]);
    assert [rest[0]] + rest[1..] == rest;
  }

  lemma GrowFenced(m: string, t: string, head: string, rest: seq<string>)
    ensures Fenced(m, [t + head] + rest) == t + Fenced(m, [head] + rest)
  {
    assert ([t + head] + rest)[1..] == rest && ([head] + rest)[1..] == rest;
    if rest != [] {
      assert t + head + m + Fenced(m, rest) == t + (head + m + Fenced(m, rest));
    }
  }

  lemma GrowVisible(t: string, head: string, rest: seq<string>)
    ensures VisibleStretches([t + head] + rest, false) == t + VisibleStretches([head] + rest, false)
  {
    assert ([t + head] + rest)[1..] == rest && ([head] + rest)[1..] == rest;
    assert t + head + VisibleStretches(rest, true) == t + (head + VisibleStretches(rest, true));
  }

  // ---------- the loop speaks its segments ----------

  lemma SpokenOne(text: string, turn: nat)
    ensures Spoken([Yield(Piece(text))]) == text
    ensures Spoken([Announce(turn)]) == Spoken([]) == ""
    ensures forall exiting :: Spoken([TurnEnd(turn, exiting)]) == ""
    ensures Spoken([Yield(TurnMark(turn))]) == ""
  {
    forall e: Effect ensures Chunks([e]) == if e.Yield? then [e.chunk] else [] {
      assert [e][1..] == [];
    }
    forall c: Chunk ensures TextOf([c]) == if c.Piece? then c.text else "" {
      assert [c][1..] == [];
    }
  }

  lemma CallSpeaks(call: Call, turn: nat)
    ensures Spoken(CallEffects(call, turn)) == Render(CallSegments(call))
  {
    hide FENCE;
    var banner := if call.banner == "" then [] else [Yield(Piece(call.banner))];
    var announce := if call.announces then [Announce(turn)] else [];
    var fence := [Yield(Piece(FENCE))];
    SpokenAppend(banner, announce);
    SpokenOne(call.banner, turn);
    SpokenOne(FENCE, turn);
    assert Spoken(banner) == call.banner && Spoken(announce) == "";
    assert call.banner + "" == call.banner;
    if call.output != [] {
      SpokenPieces(call.output);
      SpokenAppend(fence, Pieces(call.output));
      SpokenAppend(fence + Pieces(call.output), fence);
      SpokenAppend(banner + announce, fence + Pieces(call.output) + fence);
      RenderAppend([Shown(call.banner)], [Hidden(Concat(call.output))]);
    } else {
      assert banner + announce + [] == banner + announce;
    }
  }

  lemma {:induction false} CallsSpeak(calls: seq<Call>, turn: nat)
    ensures Spoken(CallsEffects(calls, turn)) == Render(CallsSegments(calls))
  {
    hide CallEffects, CallSegments, Render;
    if calls != [] {
      CallSpeaks(calls[0], turn);
      CallsSpeak(calls[1..], turn);
      var more := if calls[0].outcome == GoOn then CallsEffects(calls[1..], turn) else [];
      var moreSegments := if calls[0].outcome == GoOn then CallsSegments(calls[1..]) else [];
      SpokenAppend(CallEffects(calls[0], turn), more);
      RenderAppend(CallSegments(calls[0]), moreSegments);
      RenderNothing();
    } else {
      RenderNothing();
    }
  }

  lemma RenderNothing()
    ensures Render([]) == "" && Spoken([]) == ""
  {}

  lemma TurnSpeaks(t: Turn, turn: nat)
    ensures Spoken(TurnEffects(t, turn)) == Render(TurnSegments(t, turn))
  {
    hide CallsEffects, CallsSegments, Spoken, TurnBanner;
    var mark, banner, blank := [Yield(TurnMark(turn))], [Yield(Piece(TurnBanner(turn)))], [Yield(Piece("\n\n"))];
    SpokenOne(TurnBanner(turn), turn);
    SpokenOne("\n\n", turn);
    SpokenPieces(t.reply);
    assert ReplyEffects(t.reply, turn) == mark + banner + Pieces(t.reply) + blank;
    SpokenAppend(mark, banner);
    SpokenAppend(mark + banner, Pieces(t.reply));
    SpokenAppend(mark + banner + Pieces(t.reply), blank);
    SpokenAppend(ReplyEffects(t.reply, turn), CallsEffects(t.calls, turn));
    CallsSpeak(t.calls, turn);
    var shown := TurnBanner(turn) + Concat(t.reply) + "\n\n";
    RenderAppend([Shown(shown)], CallsSegments(t.calls));
    assert Render([Shown(shown)]) == shown + "" == shown;
  }

  lemma {:induction false} LoopSpeaks(script: seq<Turn>, turn: nat, limit: nat, hooks: nat, exiting: bool)
    requires Enough(script, limit)
    ensures Spoken(LoopEffects(script, turn, limit, hooks, exiting)) == Render(LoopSegments(script, turn, limit, hooks))
    decreases |script| - turn
  {
    hide TurnEffects, TurnSegments, Spoken, Render;
    RenderNothing();
    if turn >= limit {
      SpokenOne("", turn);
    } else {
      var t := script[turn];
      var limit' := CallsLimit(t.calls, limit);
      var outcome := CallsOutcome(t.calls);
      var body, end := TurnEffects(t, turn + 1), [TurnEnd(turn + 1, outcome != GoOn)];
      TurnSpeaks(t, turn + 1);
      SpokenOne("", turn + 1);
      SpokenAppend(body, end);
      var after := CallsHooks(t.calls, hooks);
      if outcome == GoOn || (outcome == Finish && after > 0) {
        var hooks' := if outcome == GoOn then after else after - 1;
        LoopSpeaks(script, turn + 1, limit', hooks', outcome != GoOn);
        SpokenAppend(body + end, LoopEffects(script, turn + 1, limit', hooks', outcome != GoOn));
        RenderAppend(TurnSegments(t, turn + 1), LoopSegments(script, turn + 1, limit', hooks'));
      } else {
        assert TurnSegments(t, turn + 1) + [] == TurnSegments(t, turn + 1);
      }
    }
  }

  /** The loop marks a turn before it yields text, so the worker never fails on its own. */
  lemma LoopStartsInTurn(script: seq<Turn>, limit: nat, hooks: nat)
    requires Enough(script, limit)
    ensures StartsInTurn(Chunks(LoopEffects(script, 0, limit, hooks, false)))
  {
    hide CallsEffects;
    var es := LoopEffects(script, 0, limit, hooks, false);
    if limit > 0 {
      assert es[0] == Yield(TurnMark(1));
      assert Chunks(es)[0].TurnMark?;
    }
  }

  /** A whole verbose run. Unless a stretch itself contains a fence, the progress events carry
      exactly the shown text, less what the filter still holds, and the filter ends outside. */
  method VerboseRun(script: seq<Turn>, maxTurns: nat)
    returns (progress: seq<string>, filter: Filter)
    requires Enough(script, maxTurns) && forall t | t in script :: t.calls != []
    ensures var segments := LoopSegments(script, 0, maxTurns, 0);
            AllMarkerFree(FENCE, Alternating(segments)) ==>
              !filter.inside && Concat(progress) + filter.carry == ShownText(segments)
  {
    hide LoopEffects, LoopSegments, Stretches, Alternating, FENCE;
    var es := RunLoop(script, maxTurns);
    var sent, done, failed;
    progress, sent, done, failed, filter := StreamTask(Chunks(es), |Chunks(es)|, Exhausted, "");
    LoopStartsInTurn(script, maxTurns, 0);
    LoopSpeaks(script, 0, maxTurns, 0, false);
    ghost var stretches := Alternating(LoopSegments(script, 0, maxTurns, 0));
    AlternatingIsRender(LoopSegments(script, 0, maxTurns, 0));
    FenceUnbordered();
    if AllMarkerFree(FENCE, stretches) {
      StretchesUnique(FENCE, stretches);
    }
  }
}
