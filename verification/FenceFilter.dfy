/** The bridge's stream filter (runner/yole_bridge.py), which hides the text between
    five-backtick fences however the stream is cut into deltas. The functions and the
    laws about cutting take any marker `m`; the class uses the bridge's own. */
module FenceFilter {
  import opened Text

  const FENCE: string := "`````\n"

  // ---------- one pass over a text ----------

  /** What a pass leaves behind: the fence state, the held-back suffix, the text let through. */
  datatype Scanned = Scanned(inside: bool, carry: string, out: string)

  function Prepend(head: string, s: Scanned): Scanned {
    s.(out := head + s.out)
  }

  /** The last `n` characters of the text are the first `n` of the marker. */
  predicate EndsWithStart(m: string, text: string, n: int) {
    0 <= n <= |m| && n <= |text| && forall i | 0 <= i < n :: text[|text| - n + i] == m[i]
  }

  /** The most trailing characters, at most `n`, that could begin a marker. */
  function Held(m: string, text: string, n: nat): (h: nat)
    requires n <= |m| && n <= |text|
    ensures h <= n && EndsWithStart(m, text, h)
    ensures forall k | h < k <= n :: !EndsWithStart(m, text, k)
  {
    if n == 0 || EndsWithStart(m, text, n) then n else Held(m, text, n - 1)
  }

  /** Where the held-back suffix starts: it is shorter than the marker. */
  function EmitEnd(m: string, text: string): (e: nat)
    requires m != ""
    ensures e <= |text| && EndsWithStart(m, text, |text| - e) && |text| - e < |m|
    ensures forall k | |text| - e < k < |m| :: !EndsWithStart(m, text, k)
  {
    |text| - Held(m, text, if |text| < |m| - 1 then |text| else |m| - 1)
  }

  function Visible(inside: bool, text: string): string {
    if inside then "" else text
  }

  /** The whole text in one pass: leftmost markers flip the state, the last stretch is let
      through up to its held-back suffix. */
  function Scan(m: string, text: string, inside: bool): Scanned
    requires m != ""
    decreases |text|
  {
    var j := IndexOf(text, m, 0);
    if j >= 0 then
      Prepend(Visible(inside, text[..j]), Scan(m, text[j + |m|..], !inside))
    else
      var e := EmitEnd(m, text);
      Scanned(inside, text[e..], Visible(inside, text[..e]))
  }

  // ---------- the filter object ----------

  class Filter {
    var inside: bool
    var carry: string

    constructor ()
      ensures !inside && carry == ""
    {
      inside, carry := false, "";
    }

    method Feed(delta: string) returns (emitted: string)
      modifies this
      ensures Scanned(inside, carry, emitted) == Scan(FENCE, old(carry) + delta, old(inside))
    {
      emitted := FeedMarker(FENCE, delta);
    }

    method FeedMarker(m: string, delta: string) returns (emitted: string)
      requires m != ""
      modifies this
      ensures Scanned(inside, carry, emitted) == Scan(m, old(carry) + delta, old(inside))
    {
      hide OccursAt, EmitEnd, EndsWithStart, IndexOf, Scan, Prepend;
      var text := carry + delta;
      ghost var all := Scan(m, text, inside);
      carry := "";
      emitted := "";
      var i := 0;
      var j := IndexOf(text, m, i);
      assert text[0..] == text;
      PrependNothing(all);
      while j != -1
        invariant 0 <= i <= |text| && j == IndexOf(text, m, i)
        invariant all == Prepend(emitted, Scan(m, text[i..], inside))
        decreases |text| - i
      {
        ScanStep(m, text, i, inside);
        PrependTwice(emitted, Visible(inside, text[i..j]), Scan(m, text[j + |m|..], !inside));
        assert emitted + "" == emitted;
        if !inside {
          emitted := emitted + text[i..j];
        }
        inside := !inside;
        i := j + |m|;
        j := IndexOf(text, m, i);
      }
      IndexOfSuffix(text, m, i);
      ScanWithoutMarker(m, text[i..], inside);
      var remaining := text[i..];
      var n := HoldBack(m, remaining);
      PrependLast(emitted, inside, remaining, n);
      carry := remaining[|remaining| - n..];
      if !inside {
        emitted := emitted + remaining[..|remaining| - n];
      }
    }
  }

  /** The last stretch goes out up to what is held back. */
  lemma PrependLast(emitted: string, inside: bool, remaining: string, n: nat)
    requires n <= |remaining|
    ensures var e := |remaining| - n;
            Prepend(emitted, Scanned(inside, remaining[e..], Visible(inside, remaining[..e])))
            == Scanned(inside, remaining[e..], if inside then emitted else emitted + remaining[..e])
  {
    assert emitted + "" == emitted;
  }

  /** How many trailing characters could begin a marker, tried from the most down. */
  method HoldBack(m: string, remaining: string) returns (n: nat)
    requires m != ""
    ensures n <= |remaining| && EmitEnd(m, remaining) == |remaining| - n
  {
    hide EndsWithStart, EmitEnd;
    n := if |remaining| < |m| - 1 then |remaining| else |m| - 1;
    TooMany(m, remaining);
    while n > 0 && !EndsWithStart(m, remaining, n)
      invariant 0 <= n <= |remaining| && n < |m|
      invariant forall k | n < k < |m| :: !EndsWithStart(m, remaining, k)
    {
      n := n - 1;
    }
    EmitEndIs(m, remaining, n);
  }

  lemma TooMany(m: string, text: string)
    ensures forall k | k > |text| :: !EndsWithStart(m, text, k)
  {}

  /** One turn of the filter's loop. */
  lemma ScanStep(m: string, text: string, i: nat, inside: bool)
    requires m != "" && i <= |text| && IndexOf(text, m, i) != -1
    ensures var j := IndexOf(text, m, i);
            Scan(m, text[i..], inside) == Prepend(Visible(inside, text[i..j]), Scan(m, text[j + |m|..], !inside))
  {
    hide OccursAt, EmitEnd, EndsWithStart, IndexOf, Scan;
    var j := IndexOf(text, m, i);
    IndexOfSuffix(text, m, i);
    ScanAtMarker(m, text[i..], inside, j - i);
    assert text[i..][..j - i] == text[i..j];
    assert text[i..][j - i + |m|..] == text[j + |m|..];
  }

  /** The longest held-back suffix, however it is found. */
  lemma EmitEndIs(m: string, text: string, n: nat)
    requires m != "" && n <= |text| && n < |m|
    requires n == 0 || EndsWithStart(m, text, n)
    requires forall k | n < k < |m| :: !EndsWithStart(m, text, k)
    ensures EmitEnd(m, text) == |text| - n
  {
    hide EmitEnd;
    var h := |text| - EmitEnd(m, text);
    assert EndsWithStart(m, text, n);
    assert n >= h;
  }

  lemma PrependNothing(s: Scanned)
    ensures Prepend("", s) == s
  {
    assert "" + s.out == s.out;
  }

  lemma ScanAtMarker(m: string, text: string, inside: bool, j: nat)
    requires m != "" && IndexOf(text, m, 0) == j
    ensures Scan(m, text, inside) == Prepend(Visible(inside, text[..j]), Scan(m, text[j + |m|..], !inside))
  {
    hide OccursAt, EmitEnd, EndsWithStart, Visible, IndexOf;
  }

  lemma ScanWithoutMarker(m: string, text: string, inside: bool)
    requires m != "" && IndexOf(text, m, 0) == -1
    ensures var e := EmitEnd(m, text);
            Scan(m, text, inside) == Scanned(inside, text[e..], Visible(inside, text[..e]))
  {
    hide OccursAt, EmitEnd, EndsWithStart, Visible, IndexOf;
  }

  // ---------- chunk independence ----------

  /** No marker starts in the part that a marker-free scan lets through. */
  lemma OccursAfterEmitted(m: string, t: string, b: string, k: int)
    requires m != "" && IndexOf(t, m, 0) == -1
    ensures var e := EmitEnd(m, t);
            OccursAt(t + b, m, k) <==> k >= e && OccursAt(t[e..] + b, m, k - e)
  {
    var e := EmitEnd(m, t);
    hide EmitEnd, EndsWithStart, IndexOf, OccursAt;
    if OccursAt(t + b, m, k) { OccursOrEnds(m, t, b, k); }
    if k >= e { OccursShift(t + b, t[e..] + b, e, m, k); }
  }

  /** A marker that starts within `t` is in `t`, or `t` ends with its start. */
  lemma OccursOrEnds(m: string, t: string, b: string, k: int)
    requires m != "" && OccursAt(t + b, m, k)
    ensures k >= |t| || OccursAt(t, m, k) || (0 < |t| - k < |m| && EndsWithStart(m, t, |t| - k))
  {
    var whole := t + b;
    if k < |t| && k + |m| <= |t| {
      assert forall i | 0 <= i < |m| :: m[i] == whole[k + i] == t[k + i];
    } else if k < |t| {
      var n := |t| - k;
      assert forall i | 0 <= i < n :: whole[k + i] == m[i] && t[|t| - n + i] == whole[k + i];
    }
  }

  lemma OccursShift(whole: string, rest: string, e: nat, m: string, k: int)
    requires e <= |whole| && rest == whole[e..] && e <= k
    ensures OccursAt(whole, m, k) <==> OccursAt(rest, m, k - e)
  {}

  lemma EndsShift(whole: string, rest: string, e: nat, m: string, n: nat)
    requires e <= |whole| && rest == whole[e..] && n <= |rest|
    ensures EndsWithStart(m, whole, n) <==> EndsWithStart(m, rest, n)
  {}

  /** The held-back suffix only depends on the carry and what follows it. */
  lemma EmitEndAfterCarry(m: string, t: string, b: string)
    requires m != "" && IndexOf(t, m, 0) == -1
    ensures var e := EmitEnd(m, t);
            EmitEnd(m, t + b) == e + EmitEnd(m, t[e..] + b)
  {
    hide OccursAt, EndsWithStart, EmitEnd, IndexOf;
    var e := EmitEnd(m, t);
    var whole, short := t + b, t[e..] + b;
    var n, n' := |whole| - EmitEnd(m, whole), |short| - EmitEnd(m, short);
    assert short == whole[e..];
    if n > |short| {
      EndsCut(m, t, b, n);
      assert false;
    }
    EndsShift(whole, short, e, m, n);
    EndsShift(whole, short, e, m, n');
  }

  lemma EndsCut(m: string, t: string, b: string, n: nat)
    requires |b| <= n && EndsWithStart(m, t + b, n)
    ensures EndsWithStart(m, t, n - |b|)
  {}

  lemma FoundAt(text: string, m: string, j: nat)
    requires OccursAt(text, m, j)
    requires forall k | 0 <= k < j :: !OccursAt(text, m, k)
    ensures IndexOf(text, m, 0) == j
  {}

  lemma FoundEarlier(t: string, b: string, m: string)
    requires IndexOf(t, m, 0) >= 0
    ensures IndexOf(t + b, m, 0) == IndexOf(t, m, 0)
    ensures IndexOf(t, m, 0) + |m| <= |t|
  {
    hide IndexOf;
    var j := IndexOf(t, m, 0);
    forall k | 0 <= k <= j
      ensures OccursAt(t + b, m, k) <==> OccursAt(t, m, k)
    {}
    FoundAt(t + b, m, j);
  }

  /** Cutting a text in two and carrying the state over changes nothing. */
  lemma {:induction false} ScanSplit(m: string, t: string, b: string, inside: bool)
    requires m != ""
    ensures var first := Scan(m, t, inside);
            Scan(m, t + b, inside) == Prepend(first.out, Scan(m, first.carry + b, first.inside))
    decreases |t|
  {
    hide OccursAt, EmitEnd, EndsWithStart;
    var j := IndexOf(t, m, 0);
    if j >= 0 {
      ScanSplitAtMarker(m, t, b, inside);
      var rest := t[j + |m|..];
      ScanSplit(m, rest, b, !inside);
      var first := Scan(m, rest, !inside);
      PrependTwice(Visible(inside, t[..j]), first.out, Scan(m, first.carry + b, first.inside));
    } else {
      ScanSplitNoMarker(m, t, b, inside);
    }
  }

  lemma PrependTwice(a: string, b: string, s: Scanned)
    ensures Prepend(a, Prepend(b, s)) == Prepend(a + b, s)
  {
    assert a + (b + s.out) == a + b + s.out;
  }

  lemma ScanSplitAtMarker(m: string, t: string, b: string, inside: bool)
    requires m != "" && IndexOf(t, m, 0) >= 0
    ensures var j := IndexOf(t, m, 0);
            Scan(m, t + b, inside) == Prepend(Visible(inside, t[..j]), Scan(m, t[j + |m|..] + b, !inside))
  {
    hide OccursAt, EmitEnd, EndsWithStart, Visible;
    var j := IndexOf(t, m, 0);
    FoundEarlier(t, b, m);
    assert (t + b)[j + |m|..] == t[j + |m|..] + b;
    assert (t + b)[..j] == t[..j];
  }

  lemma ScanSplitNoMarker(m: string, t: string, b: string, inside: bool)
    requires m != "" && IndexOf(t, m, 0) == -1
    ensures var e := EmitEnd(m, t);
            Scan(m, t + b, inside) == Prepend(Visible(inside, t[..e]), Scan(m, t[e..] + b, inside))
  {
    hide OccursAt, EmitEnd, EndsWithStart, IndexOf, Scan, Prepend, Visible;
    var e := EmitEnd(m, t);
    var whole, short := t + b, t[e..] + b;
    var j := IndexOf(short, m, 0);
    IndexAfterEmitted(m, t, b);
    if j >= 0 {
      var rest := Scan(m, short[j + |m|..], !inside);
      ScanAtMarker(m, whole, inside, e + j);
      ScanAtMarker(m, short, inside, j);
      CutShifts(t, b, e, j + |m|);
      CutShifts(t, b, e, j);
      VisibleConcat(inside, t[..e], short[..j]);
      PrependTwice(Visible(inside, t[..e]), Visible(inside, short[..j]), rest);
    } else {
      ScanWithoutMarker(m, whole, inside);
      ScanWithoutMarker(m, short, inside);
      EmitEndAfterCarry(m, t, b);
      var f := EmitEnd(m, short);
      CutShifts(t, b, e, f);
      VisibleConcat(inside, t[..e], short[..f]);
      PrependToScanned(Visible(inside, t[..e]), inside, short[f..], Visible(inside, short[..f]));
    }
  }

  /** A cut of the whole and of what is left after the first `e` characters. */
  lemma CutShifts(t: string, b: string, e: nat, j: nat)
    requires e <= |t| && j <= |t[e..] + b|
    ensures var whole, short := t + b, t[e..] + b;
            whole[e + j..] == short[j..] && whole[..e + j] == t[..e] + short[..j]
  {}

  lemma VisibleConcat(inside: bool, a: string, b: string)
    ensures Visible(inside, a + b) == Visible(inside, a) + Visible(inside, b)
  {}

  lemma PrependToScanned(head: string, inside: bool, carry: string, out: string)
    ensures Prepend(head, Scanned(inside, carry, out)) == Scanned(inside, carry, head + out)
  {}

  /** The first marker of the whole is the first after what has been let through. */
  lemma IndexAfterEmitted(m: string, t: string, b: string)
    requires m != "" && IndexOf(t, m, 0) == -1
    ensures var e := EmitEnd(m, t);
            var j := IndexOf(t[e..] + b, m, 0);
            IndexOf(t + b, m, 0) == if j == -1 then -1 else e + j
  {
    hide OccursAt, EmitEnd, EndsWithStart;
    var e := EmitEnd(m, t);
    var whole, short := t + b, t[e..] + b;
    forall k ensures OccursAt(whole, m, k) <==> k >= e && OccursAt(short, m, k - e) {
      OccursAfterEmitted(m, t, b, k);
    }
    hide IndexOf;
    var i, j := IndexOf(whole, m, 0), IndexOf(short, m, 0);
    if j >= 0 { assert OccursAt(whole, m, e + j); }
    if i >= 0 { assert OccursAt(short, m, i - e); }
  }

  /** Feeding deltas one after another to a filter that holds `st`. */
  function FeedAll(m: string, st: Scanned, deltas: seq<string>): Scanned
    requires m != ""
    decreases |deltas|
  {
    if deltas == [] then st
    else
      var s := Scan(m, st.carry + deltas[0], st.inside);
      FeedAll(m, Prepend(st.out, s), deltas[1..])
  }

  /** A state whose carry is held back and holds no marker: what every feed leaves. */
  ghost predicate Settled(m: string, st: Scanned)
    requires m != ""
  {
    Scan(m, st.carry, st.inside) == Scanned(st.inside, st.carry, "")
  }

  lemma ScanSettles(m: string, text: string, inside: bool)
    requires m != ""
    ensures Settled(m, Scan(m, text, inside))
  {
    var s := Scan(m, text, inside);
    ScanSplit(m, text, "", inside);
    assert text + "" == text && s.carry + "" == s.carry;
    var again := Scan(m, s.carry, s.inside);
    assert |s.out + again.out| == |s.out| + |again.out|;
  }

  lemma {:induction false} FeedAllIsOneFeed(m: string, st: Scanned, deltas: seq<string>)
    requires m != "" && Settled(m, st)
    ensures FeedAll(m, st, deltas) == Prepend(st.out, Scan(m, st.carry + Concat(deltas), st.inside))
    decreases |deltas|
  {
    hide Scan;
    if deltas == [] {
      assert st.carry + "" == st.carry && st.out + "" == st.out;
    } else {
      var rest := Concat(deltas[1..]);
      var s := Scan(m, st.carry + deltas[0], st.inside);
      ScanSettles(m, st.carry + deltas[0], st.inside);
      FeedAllIsOneFeed(m, Prepend(st.out, s), deltas[1..]);
      ScanSplit(m, st.carry + deltas[0], rest, st.inside);
      assert st.carry + deltas[0] + rest == st.carry + Concat(deltas);
      PrependTwice(st.out, s.out, Scan(m, s.carry + rest, s.inside));
    }
  }

  const START := Scanned(false, "", "")

  /** However a text is cut, the filter ends in the state of one feed of the whole text and
      has let the same text through. */
  lemma ChunkIndependence(m: string, deltas: seq<string>)
    requires m != ""
    ensures FeedAll(m, START, deltas) == Scan(m, Concat(deltas), false)
  {
    FeedAllIsOneFeed(m, START, deltas);
    assert "" + Concat(deltas) == Concat(deltas);
    var one := Scan(m, Concat(deltas), false);
    assert "" + one.out == one.out;
  }

  // ---------- what the filter means ----------

  /** No proper start of the marker is also its end. */
  ghost predicate Unbordered(m: string) {
    m != "" && forall d | 0 < d < |m| :: !Overlaps(m, d)
  }

  predicate Overlaps(m: string, d: nat) {
    d <= |m| && forall i | 0 <= i < |m| - d :: m[d + i] == m[i]
  }

  lemma FenceUnbordered()
    ensures Unbordered(FENCE)
  {
    forall d | 0 < d < |FENCE| ensures !Overlaps(FENCE, d) {
      assert FENCE[d + (5 - d)] != FENCE[5 - d];
    }
  }

  ghost predicate MarkerFree(m: string, s: string) {
    forall k :: !OccursAt(s, m, k)
  }

  ghost predicate AllMarkerFree(m: string, stretches: seq<string>) {
    forall s | s in stretches :: MarkerFree(m, s)
  }

  /** Stretches with a marker between every two of them. */
  function Fenced(m: string, stretches: seq<string>): string
    requires stretches != []
  {
    if |stretches| == 1 then stretches[0]
    else stretches[0] + m + Fenced(m, stretches[1..])
  }

  /** Every second stretch, starting with the first unless `inside`. */
  function VisibleStretches(stretches: seq<string>, inside: bool): string {
    if stretches == [] then ""
    else Visible(inside, stretches[0]) + VisibleStretches(stretches[1..], !inside)
  }

  lemma OccursInPair(p: string, m: string, rest: string, k: nat)
    requires m != "" && k < |p| && OccursAt(p + m + rest, m, k)
    ensures OccursAt(p, m, k) || (0 < |p| - k < |m| && Overlaps(m, |p| - k))
  {
    var whole := p + m + rest;
    if k + |m| > |p| {
      var d := |p| - k;
      forall i | 0 <= i < |m| - d
        ensures m[d + i] == m[i]
      {
        assert whole[k + (d + i)] == m[d + i];
        assert whole[|p| + i] == m[i];
      }
    }
  }

  /** The marker does not overlap itself, so a stretch may end in backticks. */
  lemma FirstMarker(m: string, p: string, rest: string)
    requires Unbordered(m) && MarkerFree(m, p)
    ensures IndexOf(p + m + rest, m, 0) == |p|
    ensures (p + m + rest)[..|p|] == p
    ensures (p + m + rest)[|p| + |m|..] == rest
  {
    var whole := p + m + rest;
    forall k | 0 <= k < |p|
      ensures !OccursAt(whole, m, k)
    {
      if OccursAt(whole, m, k) {
        OccursInPair(p, m, rest, k);
        assert false;
      }
    }
    FoundAt(whole, m, |p|);
  }

  /** The filter lets exactly the visible stretches through, up to what it still holds, and
      its state is the parity of the markers. */
  lemma {:induction false} ScanOfStretches(m: string, stretches: seq<string>, inside: bool)
    requires Unbordered(m) && stretches != [] && AllMarkerFree(m, stretches)
    ensures var s := Scan(m, Fenced(m, stretches), inside);
            && (s.inside == inside <==> |stretches| % 2 == 1)
            && s.out + Visible(s.inside, s.carry) == VisibleStretches(stretches, inside)
    decreases |stretches|
  {
    hide OccursAt, EmitEnd, EndsWithStart, Overlaps, Scan, IndexOf;
    var text, rest := Fenced(m, stretches), stretches[1..];
    var head := Visible(inside, stretches[0]);
    assert stretches[0] in stretches;
    if |stretches| == 1 {
      ScanWithoutMarker(m, text, inside);
      var e := EmitEnd(m, text);
      assert text[..e] + text[e..] == text;
      assert head + "" == head;
    } else {
      FirstMarker(m, stretches[0], Fenced(m, rest));
      ScanAtMarker(m, text, inside, |stretches[0]|);
      ScanOfStretches(m, rest, !inside);
      var r := Scan(m, Fenced(m, rest), !inside);
      assert head + r.out + Visible(r.inside, r.carry) == head + (r.out + Visible(r.inside, r.carry));
    }
  }

  /** The batch reading: the text between leftmost, non-overlapping markers. */
  function Stretches(m: string, text: string): (stretches: seq<string>)
    requires m != ""
    ensures stretches != []
    decreases |text|
  {
    var j := IndexOf(text, m, 0);
    if j == -1 then [text] else [text[..j]] + Stretches(m, text[j + |m|..])
  }

  lemma {:induction false} StretchesRead(m: string, text: string)
    requires m != ""
    ensures Fenced(m, Stretches(m, text)) == text
    ensures AllMarkerFree(m, Stretches(m, text))
    decreases |text|
  {
    hide OccursAt, MarkerFree;
    var j := IndexOf(text, m, 0);
    if j != -1 {
      var head, rest := text[..j], text[j + |m|..];
      StretchesRead(m, rest);
      var tail := Stretches(m, rest);
      assert Stretches(m, text) == [head] + tail && ([head] + tail)[1..] == tail;
      TextAtMarker(m, text, j);
      BeforeMarkerFree(m, text, j);
      forall s | s in [head] + tail ensures MarkerFree(m, s) {
        if s != head { assert s in tail; }
      }
    } else {
      NowhereFree(m, text);
    }
  }

  lemma TextAtMarker(m: string, text: string, j: nat)
    requires OccursAt(text, m, j)
    ensures text == text[..j] + m + text[j + |m|..]
  {}

  lemma OccursInFront(text: string, j: nat, m: string, k: int)
    requires j <= |text| && m != "" && OccursAt(text[..j], m, k)
    ensures k < j && OccursAt(text, m, k)
  {}

  lemma BeforeMarkerFree(m: string, text: string, j: nat)
    requires m != "" && IndexOf(text, m, 0) == j
    ensures MarkerFree(m, text[..j])
  {
    hide IndexOf;
    forall k ensures !OccursAt(text[..j], m, k) {
      if OccursAt(text[..j], m, k) { OccursInFront(text, j, m, k); }
    }
  }

  lemma NowhereFree(m: string, text: string)
    requires IndexOf(text, m, 0) == -1
    ensures MarkerFree(m, text)
  {
    forall k ensures !OccursAt(text, m, k) {
      if k < 0 { assert !OccursAt(text, m, k); }
    }
  }

  /** There is only one way to read a text as marker-free stretches. */
  lemma {:induction false} StretchesUnique(m: string, stretches: seq<string>)
    requires Unbordered(m) && stretches != [] && AllMarkerFree(m, stretches)
    ensures Stretches(m, Fenced(m, stretches)) == stretches
    decreases |stretches|
  {
    hide OccursAt;
    if |stretches| > 1 {
      FirstMarker(m, stretches[0], Fenced(m, stretches[1..]));
      StretchesUnique(m, stretches[1..]);
    } else {
      assert stretches[0] in stretches;
    }
  }

  /** For every text and every cut of it, output plus carry is the text outside the fences. */
  lemma FilterMeansBatch(deltas: seq<string>)
    ensures var s := FeedAll(FENCE, START, deltas);
            var stretches := Stretches(FENCE, Concat(deltas));
            && (s.inside <==> |stretches| % 2 == 0)
            && s.out + Visible(s.inside, s.carry) == VisibleStretches(stretches, false)
  {
    var text := Concat(deltas);
    ChunkIndependence(FENCE, deltas);
    FenceUnbordered();
    StretchesRead(FENCE, text);
    ScanOfStretches(FENCE, Stretches(FENCE, text), false);
  }
}
