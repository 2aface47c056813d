/** The worker's streaming loop (managed-ga/code/agentmain.py) and the bridge's drain of its
    queue (runner/yole_bridge.py). */
module StreamPump {
  import opened Text
  import opened FenceFilter

  /** What the agent loop yields: a turn marker or a piece of text. */
  datatype Chunk = TurnMark(turn: nat) | Piece(text: string)

  /** What the worker puts on the display queue. */
  datatype Item =
    | Next(delta: string, turn: nat, outputs: seq<string>)
    | Done(full: string, turn: nat, outputs: seq<string>)

  /** How the agent loop's generator stops: it runs out, or raises. */
  datatype Ending = Exhausted | Raised

  const FLUSH_AT := 30
  const BANNER := "LLM Running"

  /** All text of the chunks. */
  function TextOf(chunks: seq<Chunk>): string {
    if chunks == [] then ""
    else (if chunks[0].Piece? then chunks[0].text else "") + TextOf(chunks[1..])
  }

  /** The chunks the loop looks at before a stop seen at chunk `stopAt`. */
  function Received(chunks: seq<Chunk>, stopAt: nat): seq<Chunk> {
    if stopAt < |chunks| then chunks[..stopAt] else chunks
  }

  function Deltas(items: seq<Item>): seq<string> {
    if items == [] then []
    else (if items[0].Next? then [items[0].delta] else []) + Deltas(items[1..])
  }

  function LastTwo(resps: seq<string>): seq<string> {
    if |resps| <= 2 then resps else resps[|resps| - 2..]
  }

  function ErrorTail(error: string): string {
    "\n```\n" + error + "\n```"
  }

  /** Text before any turn marker makes the loop raise. */
  ghost predicate StartsInTurn(chunks: seq<Chunk>) {
    forall i | 0 <= i < |chunks| && chunks[i].Piece? :: exists k :: 0 <= k < i && chunks[k].TurnMark?
  }

  lemma {:induction false} TextOfSnoc(chunks: seq<Chunk>, c: Chunk)
    ensures TextOf(chunks + [c]) == TextOf(chunks) + if c.Piece? then c.text else ""
  {
    if chunks == [] {
      assert chunks + [c] == [c];
    } else {
      assert (chunks + [c])[1..] == chunks[1..] + [c];
      TextOfSnoc(chunks[1..], c);
      var head, last := if chunks[0].Piece? then chunks[0].text else "", if c.Piece? then c.text else "";
      assert TextOf(chunks + [c]) == head + TextOf(chunks[1..] + [c]);
      assert head + (TextOf(chunks[1..]) + last) == (head + TextOf(chunks[1..])) + last;
    }
  }

  lemma {:induction false} DeltasSnoc(items: seq<Item>, item: Item)
    ensures Deltas(items + [item]) == Deltas(items) + if item.Next? then [item.delta] else []
  {
    if items == [] {
      assert items + [item] == [item];
    } else {
      assert (items + [item])[1..] == items[1..] + [item];
      DeltasSnoc(items[1..], item);
      var head, last := if items[0].Next? then [items[0].delta] else [], if item.Next? then [item.delta] else [];
      assert Deltas(items + [item]) == head + Deltas(items[1..] + [item]);
      assert head + (Deltas(items[1..]) + last) == (head + Deltas(items[1..])) + last;
    }
  }

  // ---------- turns and flushes ----------

  /** Where the first turn marker from `i` on stands, or the end. */
  function MarkFrom(chunks: seq<Chunk>, i: nat): (m: nat)
    requires i <= |chunks|
    ensures i <= m <= |chunks| && (m < |chunks| ==> chunks[m].TurnMark?)
    decreases |chunks| - i
  {
    if i == |chunks| || chunks[i].TurnMark? then i else MarkFrom(chunks, i + 1)
  }

  /** The text of each turn: what stands between its marker and the next. */
  function TurnTexts(chunks: seq<Chunk>): seq<string> {
    if chunks == [] then []
    else if chunks[0].Piece? then TurnTexts(chunks[1..])
    else
      var m := MarkFrom(chunks, 1);
      [TextOf(chunks[1..m])] + TurnTexts(chunks[m..])
  }

  /** The turn the chunks end in: the last marker's, and 0 before any. */
  ghost predicate InTurn(chunks: seq<Chunk>, turn: nat) {
    && (forall j | 0 <= j < |chunks| && chunks[j].TurnMark? ::
          (forall l | j < l < |chunks| :: chunks[l].Piece?) ==> chunks[j].turn == turn)
    && ((forall j | 0 <= j < |chunks| :: chunks[j].Piece?) ==> turn == 0)
  }

  /** Chunk `i` calls for a flush when the last came after `before` chunks: it announces a turn, or more than
      30 characters wait. */
  predicate Due(chunks: seq<Chunk>, before: nat, i: nat)
    requires before <= i < |chunks|
  {
    chunks[i].Piece?
    && (Contains(chunks[i].text, BANNER) || |TextOf(chunks[..i + 1])| > |TextOf(chunks[..before])| + FLUSH_AT)
  }

  ghost predicate Waits(chunks: seq<Chunk>, before: nat, end: int) {
    before <= |chunks| && end <= |chunks| && forall i | before <= i < end :: !Due(chunks, before, i)
  }

  /** The item sends the text from one cut to the next, with the turn and the last two turns' texts there;
      the cut is the first chunk that calls for a flush, or the end of the stream. */
  ghost predicate Sends(chunks: seq<Chunk>, item: Item, before: nat, cut: nat) {
    && item.Next? && before < cut <= |chunks|
    && TextOf(chunks[..cut]) == TextOf(chunks[..before]) + item.delta
    && InTurn(chunks[..cut], item.turn) && item.outputs == LastTwo(TurnTexts(chunks[..cut]))
    && Waits(chunks, before, cut - 1) && (cut == |chunks| || Due(chunks, before, cut - 1))
  }

  function Before(cuts: seq<nat>, k: nat): nat
    requires k <= |cuts|
  {
    if k == 0 then 0 else cuts[k - 1]
  }

  ghost predicate Streams(chunks: seq<Chunk>, items: seq<Item>, cuts: seq<nat>) {
    |cuts| == |items| && forall k | 0 <= k < |items| :: Sends(chunks, items[k], Before(cuts, k), cuts[k])
  }

  lemma StreamsSnoc(chunks: seq<Chunk>, items: seq<Item>, cuts: seq<nat>, item: Item, cut: nat)
    requires Streams(chunks, items, cuts) && Sends(chunks, item, Before(cuts, |cuts|), cut)
    ensures Streams(chunks, items + [item], cuts + [cut])
  {
    hide Sends;
    forall k | 0 <= k < |items| ensures Before(cuts + [cut], k) == Before(cuts, k) {}
  }

  lemma {:induction false} MarkFromSnoc(chunks: seq<Chunk>, c: Chunk, i: nat)
    requires i <= |chunks|
    ensures MarkFrom(chunks + [c], i) ==
            if MarkFrom(chunks, i) == |chunks| && c.Piece? then |chunks| + 1 else MarkFrom(chunks, i)
    decreases |chunks| - i
  {
    if i < |chunks| && chunks[i].Piece? { MarkFromSnoc(chunks, c, i + 1); }
  }

  /** A marker starts a turn with no text, a piece is added to the last turn's. */
  function Extended(texts: seq<string>, c: Chunk): seq<string> {
    match c
    case TurnMark(_) => texts + [""]
    case Piece(text) => if texts == [] then [] else texts[|texts| - 1 := texts[|texts| - 1] + text]
  }

  lemma ExtendedTail(head: string, texts: seq<string>, c: Chunk)
    requires c.TurnMark? || texts != []
    ensures Extended([head] + texts, c) == [head] + Extended(texts, c)
  {}

  lemma {:induction false} TurnTextsSnoc(chunks: seq<Chunk>, c: Chunk)
    ensures TurnTexts(chunks + [c]) == Extended(TurnTexts(chunks), c)
  {
    hide Extended;
    var all := chunks + [c];
    if chunks == [] {
      assert all == [c] && all[1..] == [];
      FirstOfTurn(c);
    } else if chunks[0].Piece? {
      assert all[1..] == chunks[1..] + [c];
      TurnTextsSnoc(chunks[1..], c);
    } else {
      var m := MarkFrom(chunks, 1);
      MarkFromSnoc(chunks, c, 1);
      if m == |chunks| && c.Piece? {
        assert all[1..|all|] == chunks[1..m] + [c];
        TextOfSnoc(chunks[1..m], c);
        assert all[|all|..] == [] && chunks[m..] == [];
        OneTurn(TextOf(chunks[1..m]), c);
      } else {
        assert all[1..m] == chunks[1..m] && all[m..] == chunks[m..] + [c];
        TurnTextsSnoc(chunks[m..], c);
        ExtendedTail(TextOf(chunks[1..m]), TurnTexts(chunks[m..]), c);
      }
    }
  }

  lemma FirstOfTurn(c: Chunk)
    ensures TurnTexts([c]) == Extended([], c) && TurnTexts([]) == []
  {
    assert [c][1..] == [];
  }

  lemma OneTurn(head: string, c: Chunk)
    requires c.Piece?
    ensures Extended([head] + [], c) == [head + c.text] + []
  {}

  lemma InTurnSnoc(chunks: seq<Chunk>, c: Chunk, turn: nat)
    requires InTurn(chunks, turn)
    ensures InTurn(chunks + [c], if c.TurnMark? then c.turn else turn)
  {
    var all := chunks + [c];
    if c.Piece? {
      forall j | 0 <= j < |all| && all[j].TurnMark? && (forall l | j < l < |all| :: all[l].Piece?)
        ensures all[j].turn == turn
      {
        assert forall l | j < l < |chunks| :: chunks[l] == all[l];
        assert chunks[j] == all[j];
      }
      if forall j | 0 <= j < |all| :: all[j].Piece? {
        assert forall j | 0 <= j < |chunks| :: chunks[j] == all[j];
      }
    } else {
      assert all[|chunks|] == c;
    }
  }

  ghost predicate OnlyLastIsDone(items: seq<Item>) {
    items != [] && forall i | 0 <= i < |items| :: items[i].Done? <==> i == |items| - 1
  }

  /** The text so far, how much of it is on the queue, and the text of each turn. */
  ghost predicate Flowing(items: seq<Item>, fullResp: string, lastPos: int) {
    && 0 <= lastPos <= |fullResp|
    && Concat(Deltas(items)) == fullResp[..lastPos]
    && forall k | 0 <= k < |items| :: items[k].Next?
  }

  /** The worker after `i` chunks: the text so far, how much of it is sent, the turn and its texts. */
  ghost predicate Pumped(chunks: seq<Chunk>, i: nat, fullResp: string, lastPos: nat, turn: nat,
                         texts: seq<string>, items: seq<Item>, cuts: seq<nat>) {
    && i <= |chunks| && fullResp == TextOf(chunks[..i])
    && InTurn(chunks[..i], turn) && texts == TurnTexts(chunks[..i])
    && Streams(chunks, items, cuts) && Before(cuts, |cuts|) <= i
    && lastPos == |TextOf(chunks[..Before(cuts, |cuts|)])|
  }

  lemma Reads(chunks: seq<Chunk>, i: nat, fullResp: string, lastPos: nat, turn: nat,
              texts: seq<string>, items: seq<Item>, cuts: seq<nat>)
    requires i < |chunks| && Pumped(chunks, i, fullResp, lastPos, turn, texts, items, cuts)
    ensures Before(cuts, |cuts|) <= i
    ensures chunks[i].TurnMark? ==>
              Pumped(chunks, i + 1, fullResp, lastPos, chunks[i].turn, texts + [""], items, cuts)
    ensures chunks[i].Piece? ==>
              Pumped(chunks, i + 1, fullResp + chunks[i].text, lastPos, turn, Extended(texts, chunks[i]), items, cuts)
  {
    hide TextOf, InTurn, TurnTexts, Streams;
    assert chunks[..i + 1] == chunks[..i] + [chunks[i]];
    TextOfSnoc(chunks[..i], chunks[i]);
    TurnTextsSnoc(chunks[..i], chunks[i]);
    InTurnSnoc(chunks[..i], chunks[i], turn);
    assert fullResp + "" == fullResp;
  }

  /** After `i` chunks none of those not sent yet has called for a flush. */
  ghost predicate Waiting(chunks: seq<Chunk>, cuts: seq<nat>, i: int) {
    Waits(chunks, Before(cuts, |cuts|), i)
  }

  /** The worker's own test, made on its counters, is the one that says a chunk calls for a flush. */
  lemma WaitsOn(chunks: seq<Chunk>, i: nat, fullResp: string, lastPos: nat, turn: nat,
                texts: seq<string>, items: seq<Item>, cuts: seq<nat>)
    requires 0 < i && Pumped(chunks, i, fullResp, lastPos, turn, texts, items, cuts)
    requires Before(cuts, |cuts|) < i && Waiting(chunks, cuts, i - 1)
    requires chunks[i - 1].Piece? ==> !Contains(chunks[i - 1].text, BANNER) && |fullResp| - lastPos <= FLUSH_AT
    ensures Waiting(chunks, cuts, i)
  {
    hide TextOf, InTurn, TurnTexts, Streams, Contains;
  }

  lemma Flushes(chunks: seq<Chunk>, i: nat, fullResp: string, lastPos: nat, turn: nat,
                texts: seq<string>, items: seq<Item>, cuts: seq<nat>)
    requires 0 < i && Pumped(chunks, i, fullResp, lastPos, turn, texts, items, cuts)
    requires Before(cuts, |cuts|) < i && Waiting(chunks, cuts, i - 1) && lastPos <= |fullResp|
    requires i == |chunks|
             || (chunks[i - 1].Piece? && (Contains(chunks[i - 1].text, BANNER) || |fullResp| - lastPos > FLUSH_AT))
    ensures var item := Next(fullResp[lastPos..], turn, LastTwo(texts));
            Pumped(chunks, i, fullResp, |fullResp|, turn, texts, items + [item], cuts + [i])
    ensures Waiting(chunks, cuts + [i], i)
  {
    hide TextOf, InTurn, TurnTexts, Streams, Contains, LastTwo;
    CutText(chunks, Before(cuts, |cuts|), lastPos, i);
    StreamsSnoc(chunks, items, cuts, Next(fullResp[lastPos..], turn, LastTwo(texts)), i);
  }

  /** The end of the stream, with or without something left to send. */
  lemma FlushesLast(chunks: seq<Chunk>, fullResp: string, lastPos: nat, turn: nat,
                    texts: seq<string>, items: seq<Item>, cuts: seq<nat>)
    requires Pumped(chunks, |chunks|, fullResp, lastPos, turn, texts, items, cuts)
    requires Waiting(chunks, cuts, |chunks|) && lastPos < |fullResp|
    ensures var item := Next(fullResp[lastPos..], turn, LastTwo(texts));
            Pumped(chunks, |chunks|, fullResp, |fullResp|, turn, texts, items + [item], cuts + [|chunks|])
    ensures Waiting(chunks, cuts + [|chunks|], |chunks|)
  {
    hide TextOf, InTurn, TurnTexts, Streams, LastTwo;
    Flushes(chunks, |chunks|, fullResp, lastPos, turn, texts, items, cuts);
  }

  /** The turns' texts are all there is when the stream starts in a turn. */
  lemma {:induction false} TextsOfAll(chunks: seq<Chunk>)
    requires StartsInTurn(chunks)
    ensures Concat(TurnTexts(chunks)) == TextOf(chunks)
    decreases |chunks|
  {
    if chunks != [] {
      hide Concat, StartsInTurn;
      FirstIsMark(chunks);
      var m := MarkFrom(chunks, 1);
      var rest := chunks[m..];
      assert StartsInTurn(rest) by { if rest != [] { MarkedStarts(rest); } }
      TextsOfAll(rest);
      assert chunks[1..] == chunks[1..m] + rest;
      TextOfAppend(chunks[1..m], rest);
      ConcatCons(TextOf(chunks[1..m]), TurnTexts(rest));
    } else {
      ConcatEmpty();
    }
  }

  lemma ConcatCons(head: string, rest: seq<string>)
    ensures Concat([head] + rest) == head + Concat(rest)
  {}

  lemma ConcatEmpty()
    ensures Concat([]) == ""
  {}

  lemma FirstIsMark(chunks: seq<Chunk>)
    requires StartsInTurn(chunks) && chunks != []
    ensures chunks[0].TurnMark?
  {}

  lemma MarkedStarts(chunks: seq<Chunk>)
    requires chunks != [] && chunks[0].TurnMark?
    ensures StartsInTurn(chunks)
  {}

  lemma {:induction false} TextOfAppend(a: seq<Chunk>, b: seq<Chunk>)
    ensures TextOf(a + b) == TextOf(a) + TextOf(b)
  {
    if a == [] {
      assert a + b == b;
    } else {
      assert (a + b)[1..] == a[1..] + b;
      TextOfAppend(a[1..], b);
    }
  }

  /** What the whole task has put on the queue and what its `done` says. */
  ghost predicate PumpedAll(received: seq<Chunk>, items: seq<Item>, turn: nat, texts: seq<string>, cuts: seq<nat>) {
    && Streams(received, items, cuts) && Waiting(received, cuts, |received|)
    && InTurn(received, turn) && texts == TurnTexts(received)
  }

  lemma PumpedToEnd(chunks: seq<Chunk>, fullResp: string, lastPos: nat, turn: nat,
                    texts: seq<string>, items: seq<Item>, cuts: seq<nat>)
    requires Pumped(chunks, |chunks|, fullResp, lastPos, turn, texts, items, cuts) && Waiting(chunks, cuts, |chunks|)
    ensures fullResp == TextOf(chunks) && PumpedAll(chunks, items, turn, texts, cuts)
    ensures StartsInTurn(chunks) ==> Concat(texts) == fullResp
  {
    hide TextOf, InTurn, TurnTexts, Streams, Concat;
    assert chunks[..|chunks|] == chunks;
    if StartsInTurn(chunks) { TextsOfAll(chunks); }
  }

  lemma StartsReceived(chunks: seq<Chunk>, stopAt: nat)
    ensures StartsInTurn(chunks) || stopAt == 0 ==> StartsInTurn(Received(chunks, stopAt))
  {
    if StartsInTurn(chunks) {
      var received := Received(chunks, stopAt);
      forall i | 0 <= i < |received| && received[i].Piece?
        ensures exists k :: 0 <= k < i && received[k].TurnMark?
      {
        var k :| 0 <= k < i && chunks[k].TurnMark?;
        assert received[k].TurnMark?;
      }
    }
  }

  /** One task of the worker, sending increments. The stop flag is first seen at chunk
      `stopAt`, if ever; `error` is the formatted exception. A failed task's `done` is some
      text of the stream followed by the error, and what was sent is a prefix of that text.
      `cuts` are the places in the stream at which something was sent. */
  method Pump(chunks: seq<Chunk>, stopAt: nat, ending: Ending, error: string)
    returns (items: seq<Item>, sent: string, failed: bool, ghost cuts: seq<nat>)
    ensures OnlyLastIsDone(items) && sent == Concat(Deltas(items))
    ensures StartsInTurn(chunks) ==> (failed <==> stopAt >= |chunks| && ending == Raised)
    ensures !failed ==> items[|items| - 1].full == sent == TextOf(Received(chunks, stopAt))
    ensures !failed ==> Concat(items[|items| - 1].outputs) == sent
    ensures failed ==> sent <= items[|items| - 1].full
    ensures failed && StartsInTurn(chunks) ==>
              && items[|items| - 1].full == TextOf(chunks) + ErrorTail(error)
              && sent <= TextOf(chunks) && |TextOf(chunks)| - |sent| <= FLUSH_AT
    ensures StartsInTurn(chunks) ==>
              var last := items[|items| - 1];
              PumpedAll(Received(chunks, stopAt), items[..|items| - 1], last.turn, last.outputs, cuts)
    ensures !StartsInTurn(chunks) ==>
              items == [if stopAt == 0 then Done("", 0, []) else Done(chunks[0].text + ErrorTail(error), 0, [])]
  {
    hide Concat, Deltas, TextOf, IndexOf, Contains, LastTwo, Flowing, OnlyLastIsDone;
    hide Pumped, PumpedAll, Waiting, StartsInTurn, TurnTexts, ErrorTail;
    var fullResp: string, lastPos, currTurn: nat, turnResps := "", 0, 0, [];
    items, failed, cuts := [], false, [];
    var i := 0;
    ghost var received := Received(chunks, stopAt);
    NothingYet(received);
    if !StartsInTurn(chunks) { NotInTurn(chunks); }
    while i < |chunks| && i != stopAt && !failed
      invariant 0 <= i <= |received|
      invariant 0 <= lastPos <= |fullResp| && Flowing(items, fullResp, lastPos)
      invariant Pumped(received, i, fullResp, lastPos, currTurn, turnResps, items, cuts)
      invariant failed ==> !StartsInTurn(chunks)
      invariant i == 0 ==> !failed && items == [] && fullResp == "" && currTurn == 0 && turnResps == []
      invariant !StartsInTurn(chunks) && i > 0 ==>
                  failed && items == [] && fullResp == chunks[0].text && currTurn == 0 && turnResps == []
      invariant !failed ==> Waiting(received, cuts, i)
      invariant !failed ==> |fullResp| - lastPos <= FLUSH_AT
      decreases |chunks| - i
    {
      Reads(received, i, fullResp, lastPos, currTurn, turnResps, items, cuts);
      match chunks[i] {
      case TurnMark(turn) =>
        currTurn := turn;
        turnResps := turnResps + [""];
        WaitsOn(received, i + 1, fullResp, lastPos, currTurn, turnResps, items, cuts);
      case Piece(text) =>
        FlowingGrows(items, fullResp, lastPos, text);
        assert "" + text == text;
        ghost var before := fullResp;
        fullResp := fullResp + text;
        if turnResps == [] {
          PieceInTurn(chunks, received, i, before, lastPos, currTurn, turnResps, items, cuts);
          failed := true;
        } else {
          turnResps := turnResps[|turnResps| - 1 := turnResps[|turnResps| - 1] + text];
          if |fullResp| - lastPos > FLUSH_AT || Contains(text, BANNER) {
            Flushes(received, i + 1, fullResp, lastPos, currTurn, turnResps, items, cuts);
            items := Put(items, fullResp, lastPos, currTurn, turnResps);
            lastPos, cuts := |fullResp|, cuts + [i + 1];
          } else {
            WaitsOn(received, i + 1, fullResp, lastPos, currTurn, turnResps, items, cuts);
          }
        }
      }
      i := i + 1;
    }
    if !failed && i == |chunks| && ending == Raised {
      failed := true;
    }
    if !failed && lastPos < |fullResp| {
      FlushesLast(received, fullResp, lastPos, currTurn, turnResps, items, cuts);
      items := Put(items, fullResp, lastPos, currTurn, turnResps);
      lastPos, cuts := |fullResp|, cuts + [i];
    }
    if StartsInTurn(chunks) || !failed {
      StartsReceived(chunks, stopAt);
      PumpedToEnd(received, fullResp, lastPos, currTurn, turnResps, items, cuts);
    }
    sent := fullResp[..lastPos];
    var last := Done(if failed then fullResp + ErrorTail(error) else fullResp, currTurn, turnResps);
    FlowingEnds(items, fullResp, lastPos, last);
    items := items + [last];
  }

  /** What stands between two places of a stream. */
  lemma CutText(chunks: seq<Chunk>, before: nat, pos: nat, cut: nat)
    requires before <= cut <= |chunks| && pos == |TextOf(chunks[..before])|
    ensures TextOf(chunks[..before]) <= TextOf(chunks[..cut])
    ensures TextOf(chunks[..cut]) == TextOf(chunks[..before]) + TextOf(chunks[..cut])[pos..]
  {
    TextGrows(chunks, before, cut);
  }

  lemma {:induction false} TextGrows(chunks: seq<Chunk>, before: nat, cut: nat)
    requires before <= cut <= |chunks|
    ensures TextOf(chunks[..before]) <= TextOf(chunks[..cut])
    decreases cut
  {
    if before < cut {
      assert chunks[..cut] == chunks[..cut - 1] + [chunks[cut - 1]];
      TextOfSnoc(chunks[..cut - 1], chunks[cut - 1]);
      TextGrows(chunks, before, cut - 1);
    }
  }

  /** More text leaves what is on the queue alone. */
  lemma FlowingGrows(items: seq<Item>, fullResp: string, lastPos: nat, text: string)
    requires Flowing(items, fullResp, lastPos)
    ensures Flowing(items, fullResp + text, lastPos)
  {
    assert fullResp[..lastPos] == (fullResp + text)[..lastPos];
  }

  lemma FlowingEnds(items: seq<Item>, fullResp: string, lastPos: nat, last: Item)
    requires Flowing(items, fullResp, lastPos) && last.Done?
    ensures lastPos <= |fullResp|
    ensures OnlyLastIsDone(items + [last]) && Concat(Deltas(items + [last])) == fullResp[..lastPos]
  {
    DeltasSnoc(items, last);
    assert Deltas(items) + [] == Deltas(items);
  }

  /** Where a stream starts in a turn, there is a turn's text to add a piece to. */
  lemma PieceInTurn(chunks: seq<Chunk>, received: seq<Chunk>, i: nat, fullResp: string, lastPos: nat, turn: nat,
                    texts: seq<string>, items: seq<Item>, cuts: seq<nat>)
    requires i < |received| && received <= chunks && chunks[i].Piece?
    requires Pumped(received, i, fullResp, lastPos, turn, texts, items, cuts)
    ensures StartsInTurn(chunks) ==> texts != []
  {
    if StartsInTurn(chunks) {
      var k :| 0 <= k < i && chunks[k].TurnMark?;
      MarkedHasText(received[..i], k);
    }
  }

  lemma {:induction false} MarkedHasText(chunks: seq<Chunk>, k: nat)
    requires k < |chunks| && chunks[k].TurnMark?
    ensures TurnTexts(chunks) != []
  {
    if chunks[0].Piece? { MarkedHasText(chunks[1..], k - 1); }
  }

  lemma NotInTurn(chunks: seq<Chunk>)
    requires !StartsInTurn(chunks)
    ensures chunks != [] && chunks[0].Piece?
  {}

  lemma NothingYet(chunks: seq<Chunk>)
    ensures TextOf(chunks[..0]) == "" && Flowing([], "", 0) && Concat([]) == ""
    ensures InTurn(chunks[..0], 0) && TurnTexts(chunks[..0]) == [] && Waiting(chunks, [], 0)
    ensures Pumped(chunks, 0, "", 0, 0, [], [], [])
  {
    assert chunks[..0] == [];
  }

  method Put(items: seq<Item>, fullResp: string, lastPos: nat, turn: nat, turnResps: seq<string>)
    returns (more: seq<Item>)
    requires Flowing(items, fullResp, lastPos)
    ensures more == items + [Next(fullResp[lastPos..], turn, LastTwo(turnResps))]
    ensures Flowing(more, fullResp, |fullResp|)
  {
    more := items + [Next(fullResp[lastPos..], turn, LastTwo(turnResps))];
    DeltasSnoc(items, Next(fullResp[lastPos..], turn, LastTwo(turnResps)));
    ConcatSnoc(Deltas(items), fullResp[lastPos..]);
    assert fullResp[..|fullResp|] == fullResp;
  }

  // ---------- the drain ----------

  /** The deltas of the items before the first `Done`. */
  function Drained(items: seq<Item>): seq<string> {
    if items == [] || items[0].Done? then [] else [items[0].delta] + Drained(items[1..])
  }

  /** The drain thread: every delta goes through one filter; empty deltas and empty results
      are skipped; `Done` ends it, whatever the filter still holds. */
  method Drain(items: seq<Item>) returns (progress: seq<string>, filter: Filter)
    ensures "" !in progress
    ensures Scanned(filter.inside, filter.carry, Concat(progress)) == Scan(FENCE, Concat(Drained(items)), false)
  {
    hide Scan;
    filter := new Filter();
    progress := [];
    var i := 0;
    ScanNothing(FENCE);
    ghost var text := "";
    assert items[0..] == items;
    assert Concat(Drained(items)) == "" + Concat(Drained(items));
    while i < |items| && items[i].Next?
      invariant 0 <= i <= |items|
      invariant "" !in progress
      invariant Concat(Drained(items)) == text + Concat(Drained(items[i..]))
      invariant Scanned(filter.inside, filter.carry, Concat(progress)) == Scan(FENCE, text, false)
    {
      var delta := items[i].delta;
      assert Drained(items[i..]) == [delta] + Drained(items[i + 1..]);
      assert text + (delta + Concat(Drained(items[i + 1..]))) == text + delta + Concat(Drained(items[i + 1..]));
      if delta != "" {
        ScanSplit(FENCE, text, delta, false);
        var filtered := filter.Feed(delta);
        assert Concat(progress) + "" == Concat(progress);
        if filtered != "" {
          ConcatSnoc(progress, filtered);
          progress := progress + [filtered];
        }
      }
      assert text + "" == text;
      text := text + delta;
      i := i + 1;
    }
    assert text + "" == text;
  }

  lemma ScanNothing(m: string)
    requires m != ""
    ensures Scan(m, "", false) == START
  {}

  lemma {:induction false} DrainedIsDeltas(items: seq<Item>)
    requires OnlyLastIsDone(items)
    ensures Drained(items) == Deltas(items)
  {
    if |items| > 1 {
      assert forall i | 0 <= i < |items| - 1 :: items[1..][i] == items[i + 1];
      DrainedIsDeltas(items[1..]);
    } else {
      assert items[0].Done?;
    }
  }

  /** A task end to end: the progress events carry exactly the text that was sent outside the
      fences, up to the carry the drain drops, whatever the flush threshold. What was sent is
      the final `done`, or, when the task failed, the stream's text but for the last few
      characters before the error. */
  method StreamTask(chunks: seq<Chunk>, stopAt: nat, ending: Ending, error: string)
    returns (progress: seq<string>, sent: string, done: string, failed: bool, filter: Filter)
    ensures Concat(progress) + Visible(filter.inside, filter.carry)
              == VisibleStretches(Stretches(FENCE, sent), false)
    ensures filter.inside <==> |Stretches(FENCE, sent)| % 2 == 0
    ensures !failed ==> sent == done == TextOf(Received(chunks, stopAt))
    ensures failed ==> sent <= done
    ensures failed && StartsInTurn(chunks) ==>
              && done == TextOf(chunks) + ErrorTail(error)
              && sent <= TextOf(chunks) && |TextOf(chunks)| - |sent| <= FLUSH_AT
    ensures StartsInTurn(chunks) ==> (failed <==> stopAt >= |chunks| && ending == Raised)
  {
    var items;
    ghost var cuts;
    items, sent, failed, cuts := Pump(chunks, stopAt, ending, error);
    done := items[|items| - 1].full;
    progress, filter := Drain(items);
    hide Scan, Stretches, VisibleStretches, Drained, Deltas, TextOf;
    DrainedIsDeltas(items);
    ChunkIndependence(FENCE, Deltas(items));
    FilterMeansBatch(Deltas(items));
  }
}
