/** The fallback message search (core/src/db.rs): an escaped `LIKE` pattern finds the rows, and
    the first match inside a snippet is set in guillemets. */
module LikeSearch {
  import opened Text

  // ---------- SQLite's LIKE with ESCAPE '\' (SQL-92, section 8.5) ----------

  /** SQLite folds case for ASCII letters only. */
  function Fold(c: char): char {
    if 'A' <= c <= 'Z' then c + ' ' else c
  }

  const UPPER := "ABCDEFGHIJKLMNOPQRSTUVWXYZ"
  const LOWER := "abcdefghijklmnopqrstuvwxyz"

  predicate Cases(a: char, b: char, i: nat) {
    i < 26 && a == UPPER[i] && b == LOWER[i]
  }

  /** Two characters fold to one exactly when they are the same or a letter's two cases. */
  lemma FoldJoinsCases(a: char, b: char)
    ensures Fold(a) == Fold(b) <==> a == b || (exists i :: Cases(a, b, i)) || (exists i :: Cases(b, a, i))
  {
    CasesAt(a, b);
    CasesAt(b, a);
  }

  lemma CasesAt(a: char, b: char)
    ensures (exists i :: Cases(a, b, i)) <==> 'A' <= a <= 'Z' && b == a + ' '
  {
    assert forall i: nat | i < 26 :: UPPER[i] == ('A' as int + i) as char && LOWER[i] == ('a' as int + i) as char;
    if 'A' <= a <= 'Z' && b == a + ' ' { assert Cases(a, b, a as int - 'A' as int); }
  }

  function FoldAll(s: string): string {
    seq(|s|, i requires 0 <= i < |s| => Fold(s[i]))
  }

  /** `%` is any run of characters, `_` any one, and the escape makes the next character stand for
      itself; an escape with nothing after it matches nothing. */
  predicate Like(pattern: string, text: string)
    decreases |pattern|, |text|
  {
    if pattern == "" then text == ""
    else if pattern[0] == '%' then Like(pattern[1..], text) || (text != "" && Like(pattern, text[1..]))
    else if pattern[0] == '_' then text != "" && Like(pattern[1..], text[1..])
    else if pattern[0] == '\\' then
      |pattern| >= 2 && text != "" && Fold(pattern[1]) == Fold(text[0]) && Like(pattern[2..], text[1..])
    else text != "" && Fold(pattern[0]) == Fold(text[0]) && Like(pattern[1..], text[1..])
  }

  // ---------- escaping ----------

  predicate Special(c: char) {
    c == '\\' || c == '%' || c == '_'
  }

  function EscapedChar(c: char): string {
    if Special(c) then ['\\', c] else [c]
  }

  function Escaped(s: string): string {
    if s == "" then "" else EscapedChar(s[0]) + Escaped(s[1..])
  }

  lemma {:induction false} EscapedSnoc(s: string, c: char)
    ensures Escaped(s + [c]) == Escaped(s) + EscapedChar(c)
  {
    if s == "" {
      assert s + [c] == [c];
    } else {
      assert (s + [c])[1..] == s[1..] + [c];
      EscapedSnoc(s[1..], c);
    }
  }

  method EscapeLike(s: string) returns (out: string)
    ensures out == Escaped(s)
  {
    out := "";
    for i := 0 to |s|
      invariant out == Escaped(s[..i])
    {
      assert s[..i + 1] == s[..i] + [s[i]];
      EscapedSnoc(s[..i], s[i]);
      if Special(s[i]) {
        out := out + ['\\'];
        out := out + [s[i]];
      } else {
        out := out + [s[i]];
      }
    }
    assert s[..|s|] == s;
  }

  // ---------- an escaped query means "contains" ----------

  /** `q` stands at position `k` of `text`, up to ASCII case. */
  predicate FoundAt(text: string, q: string, k: nat) {
    k + |q| <= |text| && FoldAll(text[k..k + |q|]) == FoldAll(q)
  }

  ghost predicate Found(text: string, q: string) {
    exists k: nat :: FoundAt(text, q, k)
  }

  /** One character at a time: the window matches when its head and its tail do. */
  lemma FoundAtStart(text: string, q: string)
    requires q != ""
    ensures FoundAt(text, q, 0) <==> text != "" && Fold(q[0]) == Fold(text[0]) && FoundAt(text[1..], q[1..], 0)
  {
    if |q| <= |text| {
      var window, rest := text[0..|q|], text[1..][0..|q| - 1];
      assert rest == window[1..];
      assert FoldAll(window) == [Fold(text[0])] + FoldAll(rest);
      assert FoldAll(q) == [Fold(q[0])] + FoldAll(q[1..]);
      assert FoldAll(window)[1..] == FoldAll(rest) && FoldAll(q)[1..] == FoldAll(q[1..]);
      assert FoldAll(window)[0] == Fold(text[0]) && FoldAll(q)[0] == Fold(q[0]);
    }
  }

  lemma {:induction false} PercentMatchesAll(text: string)
    ensures Like("%", text)
  {
    assert "%"[1..] == "";
    if text != "" { PercentMatchesAll(text[1..]); }
  }

  /** Without the leading `%`, an escaped query followed by `%` matches exactly the texts that start
      with it. */
  lemma {:induction false} EscapedPrefix(q: string, text: string)
    ensures Like(Escaped(q) + "%", text) <==> FoundAt(text, q, 0)
  {
    if q == "" {
      assert Escaped(q) + "%" == "%" && text[0..0] == q;
      PercentMatchesAll(text);
    } else {
      var rest := Escaped(q[1..]) + "%";
      assert Escaped(q) + "%" == EscapedChar(q[0]) + rest;
      FoundAtStart(text, q);
      if text != "" { EscapedPrefix(q[1..], text[1..]); }
    }
  }

  /** Shifting a window along the text. */
  lemma FoundAtShift(text: string, q: string, k: nat)
    requires text != ""
    ensures FoundAt(text[1..], q, k) <==> FoundAt(text, q, k + 1)
  {
    if k + 1 + |q| <= |text| { assert text[1..][k..k + |q|] == text[k + 1..k + 1 + |q|]; }
  }

  lemma FoundHereOrLater(text: string, q: string)
    requires text != ""
    ensures Found(text, q) <==> FoundAt(text, q, 0) || Found(text[1..], q)
  {
    hide FoundAt;
    forall k: nat ensures FoundAt(text[1..], q, k) <==> FoundAt(text, q, k + 1) { FoundAtShift(text, q, k); }
    if Found(text, q) {
      var k: nat :| FoundAt(text, q, k);
      if k > 0 { assert FoundAt(text[1..], q, k - 1); }
    }
    if Found(text[1..], q) {
      var k: nat :| FoundAt(text[1..], q, k);
      assert FoundAt(text, q, k + 1);
    }
  }

  /** A query as the search binds it: `%`, the escaped query, `%`. */
  lemma {:induction false} EscapedMeansContains(q: string, text: string)
    ensures Like("%" + Escaped(q) + "%", text) <==> Found(text, q)
  {
    var pattern := "%" + Escaped(q) + "%";
    assert pattern[0] == '%' && pattern[1..] == Escaped(q) + "%";
    EscapedPrefix(q, text);
    hide Escaped;
    if text != "" {
      EscapedMeansContains(q, text[1..]);
      FoundHereOrLater(text, q);
    } else {
      assert forall k: nat :: FoundAt(text, q, k) ==> k == 0;
    }
  }

  /** What the escaping is for: bound raw, an underscore finds texts that do not contain one. */
  lemma RawQueryFindsTooMuch()
    ensures Like("%" + "_" + "%", "a") && !Found("a", "_")
  {
    assert ("%" + "_" + "%")[1..] == "_%" && "_%"[1..] == "%" && "a"[1..] == "";
    PercentMatchesAll("");
    forall k: nat ensures !FoundAt("a", "_", k) {
      if k == 0 {
        assert "a"[0..1][0] == 'a';
        assert FoldAll("a"[0..1])[0] == 'a' && FoldAll("_")[0] == '_';
      }
    }
  }

  // ---------- byte offsets and character boundaries ----------

  /** Length of a character in UTF-8 (RFC 3629, section 3). */
  function Width(c: char): nat {
    if c <= '\U{7F}' then 1 else if c <= '\U{7FF}' then 2 else if c <= '\U{FFFF}' then 3 else 4
  }

  /** The bytes of a character: a lead byte that tells how many follow, and six bits in each of those. */
  function Utf8(c: char): (bytes: seq<nat>)
    ensures forall b | b in bytes :: b < 256
  {
    var n := c as int;
    if n < 0x80 then [n]
    else if n < 0x800 then [0xC0 + n / 64, 0x80 + n % 64]
    else if n < 0x1_0000 then [0xE0 + n / 4096, 0x80 + n / 64 % 64, 0x80 + n % 64]
    else [0xF0 + n / 262144, 0x80 + n / 4096 % 64, 0x80 + n / 64 % 64, 0x80 + n % 64]
  }

  function Utf8All(s: string): seq<nat> {
    if s == "" then [] else Utf8(s[0]) + Utf8All(s[1..])
  }

  /** Offsets count the bytes of the encoded text. */
  lemma {:induction false} OffsetsAreBytes(s: string)
    ensures ByteLen(s) == |Utf8All(s)|
  {
    if s != "" { OffsetsAreBytes(s[1..]); }
  }

  function ByteLen(s: string): nat {
    if s == "" then 0 else Width(s[0]) + ByteLen(s[1..])
  }

  /** The text from byte offset `b` on; None where Rust's slicing panics: past the end or inside a
      character. */
  function FromByte(s: string, b: nat): Option<string> {
    if b == 0 then Some(s)
    else if s == "" || Width(s[0]) > b then None
    else FromByte(s[1..], b - Width(s[0]))
  }

  /** `nth_char_boundary` once it has sliced off the text before `start`. */
  function Walk(rest: string, start: nat, n: nat): Option<nat> {
    if n == 0 then Some(start)
    else if rest == "" then None
    else Walk(rest[1..], start + Width(rest[0]), n - 1)
  }

  function NthCharBoundary(s: string, start: nat, n: nat): Option<nat>
    requires FromByte(s, start).Some?
  {
    Walk(FromByte(s, start).value, start, n)
  }

  lemma {:induction false} FromByteAt(s: string, k: nat)
    requires k <= |s|
    ensures FromByte(s, ByteLen(s[..k])) == Some(s[k..])
  {
    if k > 0 {
      assert s[..k][1..] == s[1..][..k - 1] && s[..k][0] == s[0];
      FromByteAt(s[1..], k - 1);
      assert s[1..][k - 1..] == s[k..];
    }
  }

  lemma {:induction false} WalkCounts(rest: string, start: nat, n: nat)
    ensures Walk(rest, start, n) == if n <= |rest| then Some(start + ByteLen(rest[..n])) else None
  {
    if n > 0 && rest != "" {
      WalkCounts(rest[1..], start + Width(rest[0]), n - 1);
      if n <= |rest| { assert rest[..n][1..] == rest[1..][..n - 1]; }
    }
  }

  lemma {:induction false} ByteLenConcat(a: string, b: string)
    ensures ByteLen(a + b) == ByteLen(a) + ByteLen(b)
  {
    if a == "" {
      assert a + b == b;
    } else {
      assert (a + b)[1..] == a[1..] + b;
      ByteLenConcat(a[1..], b);
    }
  }

  /** From the offset of character `k` the function reaches the offset of character `k + n`, and
      fails exactly when fewer than `n` characters are left. */
  lemma BoundaryCountsCharacters(s: string, k: nat, n: nat)
    requires k <= |s|
    ensures FromByte(s, ByteLen(s[..k])).Some?
    ensures NthCharBoundary(s, ByteLen(s[..k]), n) ==
            if k + n <= |s| then Some(ByteLen(s[..k + n])) else None
  {
    hide NthCharBoundary, FromByte, ByteLen;
    var start, rest := ByteLen(s[..k]), s[k..];
    FromByteAt(s, k);
    BoundaryFrom(s, start, rest, n);
    if k + n <= |s| { PrefixBytes(s, k, n); }
  }

  lemma BoundaryFrom(s: string, start: nat, rest: string, n: nat)
    requires FromByte(s, start) == Some(rest)
    ensures NthCharBoundary(s, start, n) == if n <= |rest| then Some(start + ByteLen(rest[..n])) else None
  {
    WalkCounts(rest, start, n);
  }

  lemma PrefixBytes(s: string, k: nat, n: nat)
    requires k + n <= |s|
    ensures ByteLen(s[..k + n]) == ByteLen(s[..k]) + ByteLen(s[k..][..n])
  {
    assert s[..k + n] == s[..k] + s[k..][..n];
    ByteLenConcat(s[..k], s[k..][..n]);
  }

  /** A slice by byte offsets. */
  function Slice(s: string, start: nat, end: nat): Option<string>
    requires start <= end
  {
    match FromByte(s, start)
    case None => None
    case Some(rest) =>
      match FromByte(rest, end - start)
      case None => None
      case Some(after) => if |after| <= |rest| then Some(rest[..|rest| - |after|]) else None
  }

  lemma SliceAt(s: string, i: nat, j: nat)
    requires i <= j <= |s|
    ensures ByteLen(s[..i]) <= ByteLen(s[..j])
    ensures Slice(s, ByteLen(s[..i]), ByteLen(s[..j])) == Some(s[i..j])
  {
    assert s[..j] == s[..i] + s[i..j] && s[i..][..j - i] == s[i..j];
    ByteLenConcat(s[..i], s[i..j]);
    FromByteAt(s, i);
    FromByteAt(s[i..], j - i);
    assert s[i..][j - i..] == s[j..];
  }

  // ---------- highlighting ----------

  const OPEN := '«'
  const CLOSE := '»'

  /** The window of `|q|` characters at `k` equals the query once both are in lower case. */
  predicate MarkableAt(lower: string -> string, snippet: string, q: string, k: nat) {
    k + |q| <= |snippet| && lower(snippet[k..k + |q|]) == lower(q)
  }

  /** The characters of a text other than the two marks. */
  function Unmarked(s: string): string {
    if s == "" then ""
    else (if s[0] == OPEN || s[0] == CLOSE then "" else [s[0]]) + Unmarked(s[1..])
  }

  lemma {:induction false} UnmarkedConcat(a: string, b: string)
    ensures Unmarked(a + b) == Unmarked(a) + Unmarked(b)
  {
    if a == "" {
      assert a + b == b;
    } else {
      assert (a + b)[1..] == a[1..] + b;
      UnmarkedConcat(a[1..], b);
    }
  }

  lemma {:induction false} UnmarkedPlain(s: string)
    requires OPEN !in s && CLOSE !in s
    ensures Unmarked(s) == s
  {
    if s != "" { UnmarkedPlain(s[1..]); }
  }

  lemma OneMarkAdded(a: string, mark: char, b: string)
    requires mark == OPEN || mark == CLOSE
    ensures Unmarked(a + [mark] + b) == Unmarked(a + b)
  {
    UnmarkedConcat(a, b);
    UnmarkedConcat(a, [mark]);
    UnmarkedConcat(a + [mark], b);
  }

  lemma TwoMarksAdded(a: string, b: string, c: string)
    ensures Unmarked(a + [OPEN] + b + [CLOSE] + c) == Unmarked(a + b + c)
  {
    hide Unmarked;
    var end := [CLOSE] + c;
    OneMarkAdded(a, OPEN, b + end);
    OneMarkAdded(a + b, CLOSE, c);
    assert a + [OPEN] + b + [CLOSE] + c == a + [OPEN] + (b + end);
    assert a + (b + end) == a + b + [CLOSE] + c;
  }

  lemma MarkingAddsOnlyMarks(snippet: string, k: nat, n: nat)
    requires k + n <= |snippet|
    ensures Unmarked(snippet[..k] + "«" + snippet[k..k + n] + "»" + snippet[k + n..]) == Unmarked(snippet)
  {
    hide Unmarked;
    assert "«" == [OPEN] && "»" == [CLOSE];
    var a, b, c := snippet[..k], snippet[k..k + n], snippet[k + n..];
    TwoMarksAdded(a, b, c);
    assert snippet == snippet[..k + n] + c && snippet[..k + n] == a + b;
  }

  ghost predicate FirstMarkable(lower: string -> string, snippet: string, q: string, k: nat) {
    MarkableAt(lower, snippet, q, k) && forall j: nat | j < k :: !MarkableAt(lower, snippet, q, j)
  }

  ghost predicate NoneBefore(lower: string -> string, snippet: string, q: string, k: nat) {
    forall j: nat | j < k :: !MarkableAt(lower, snippet, q, j)
  }

  lemma Miss(lower: string -> string, snippet: string, q: string, k: nat)
    requires NoneBefore(lower, snippet, q, k) && k + |q| <= |snippet| && lower(snippet[k..k + |q|]) != lower(q)
    ensures NoneBefore(lower, snippet, q, k + 1)
  {}

  /** What a match at `k` means for the result. */
  lemma MarkedHere(lower: string -> string, snippet: string, q: string, k: nat, r: string)
    requires NoneBefore(lower, snippet, q, k) && k + |q| <= |snippet| && lower(snippet[k..k + |q|]) == lower(q)
    requires r == snippet[..k] + "«" + snippet[k..k + |q|] + "»" + snippet[k + |q|..]
    ensures exists i: nat :: MarkableAt(lower, snippet, q, i)
    ensures forall i: nat | FirstMarkable(lower, snippet, q, i) ::
              r == snippet[..i] + "«" + snippet[i..i + |q|] + "»" + snippet[i + |q|..]
    ensures Unmarked(r) == Unmarked(snippet)
  {
    hide Unmarked;
    MarkingAddsOnlyMarks(snippet, k, |q|);
    assert MarkableAt(lower, snippet, q, k);
    forall i: nat | FirstMarkable(lower, snippet, q, i) ensures i == k {}
  }

  lemma PastEnd(lower: string -> string, snippet: string, q: string, k: nat)
    requires NoneBefore(lower, snippet, q, k) && k + |q| > |snippet|
    ensures forall i: nat :: !FirstMarkable(lower, snippet, q, i)
  {}

  lemma NoneBeforeStart(lower: string -> string, snippet: string, q: string)
    ensures NoneBefore(lower, snippet, q, 0)
  {}

  /** The text with its window at `k` marked, cut out by byte offsets. */
  method MarkAt(snippet: string, start: nat, window: string, end: nat, ghost k: nat, n: nat) returns (r: string)
    requires k + n <= |snippet| && start == ByteLen(snippet[..k]) && end == ByteLen(snippet[..k + n])
    requires window == snippet[k..k + n]
    ensures r == snippet[..k] + "«" + snippet[k..k + n] + "»" + snippet[k + n..]
  {
    hide ByteLen, FromByte, Slice;
    SlicesAround(snippet, k, n);
    r := Slice(snippet, 0, start).value + "«" + window + "»" + FromByte(snippet, end).value;
  }

  /** `highlight_like`: the leftmost window is marked, the slices never panic, and nothing but marks
      is added. `lower` is Rust's `to_lowercase`. */
  method HighlightLike(lower: string -> string, snippet: string, q: string) returns (r: string)
    ensures q == "" ==> r == snippet
    ensures (forall k: nat :: !MarkableAt(lower, snippet, q, k)) ==> r == snippet
    ensures forall k: nat | q != "" && FirstMarkable(lower, snippet, q, k) ::
              r == snippet[..k] + "«" + snippet[k..k + |q|] + "»" + snippet[k + |q|..]
    ensures Unmarked(r) == Unmarked(snippet)
    ensures OPEN !in snippet && CLOSE !in snippet ==> Unmarked(r) == snippet
  {
    if OPEN !in snippet && CLOSE !in snippet { UnmarkedPlain(snippet); }
    hide Unmarked, ByteLen, FromByte, Slice, NthCharBoundary, Width, MarkableAt, FirstMarkable, NoneBefore;
    if |q| == 0 { return snippet; }
    var needle := lower(q);
    var start := 0;
    StartOfText(snippet);
    NoneBeforeStart(lower, snippet, q);
    for k := 0 to |snippet|
      invariant start == ByteLen(snippet[..k])
      invariant NoneBefore(lower, snippet, q, k)
    {
      BoundaryCountsCharacters(snippet, k, |q|);
      var end := NthCharBoundary(snippet, start, |q|);
      if end == None {
        PastEnd(lower, snippet, q, k);
        return snippet;
      }
      SlicesAround(snippet, k, |q|);
      var window := Slice(snippet, start, end.value).value;
      if lower(window) == needle {
        r := MarkAt(snippet, start, window, end.value, k, |q|);
        MarkedHere(lower, snippet, q, k, r);
        return;
      }
      Miss(lower, snippet, q, k);
      StartOfNext(snippet, k);
      start := start + Width(snippet[k]);
    }
    PastEnd(lower, snippet, q, |snippet|);
    r := snippet;
  }

  lemma StartOfText(s: string)
    ensures ByteLen(s[..0]) == 0
  {}

  lemma StartOfNext(s: string, k: nat)
    requires k < |s|
    ensures ByteLen(s[..k + 1]) == ByteLen(s[..k]) + Width(s[k])
  {
    assert s[..k + 1] == s[..k] + [s[k]];
    ByteLenConcat(s[..k], [s[k]]);
  }

  /** The three slices of a highlight succeed, and are the text before, in and after the window. */
  lemma SlicesAround(s: string, k: nat, n: nat)
    requires k + n <= |s|
    ensures var start, end := ByteLen(s[..k]), ByteLen(s[..k + n]);
            && start <= end
            && Slice(s, 0, start) == Some(s[..k]) && Slice(s, start, end) == Some(s[k..k + n])
            && FromByte(s, end) == Some(s[k + n..])
  {
    SliceAt(s, 0, k);
    SliceAt(s, k, k + n);
    FromByteAt(s, k + n);
    StartOfText(s);
    assert s[0..k] == s[..k];
  }

  // ---------- when searching and highlighting agree ----------

  ghost predicate Markable(lower: string -> string, snippet: string, q: string) {
    exists k: nat :: MarkableAt(lower, snippet, q, k)
  }

  /** The highlighter's comparison of a window with the query, and the search's, come out the same. */
  predicate SameVerdict(lower: string -> string, w: string, q: string) {
    lower(w) == lower(q) <==> FoldAll(w) == FoldAll(q)
  }

  predicate SameVerdictAt(lower: string -> string, snippet: string, q: string, k: nat) {
    k + |q| <= |snippet| ==> SameVerdict(lower, snippet[k..k + |q|], q)
  }

  /** If that holds of every window of a snippet, the snippet is markable exactly when it is found. */
  lemma WindowsDecide(lower: string -> string, snippet: string, q: string)
    requires forall k: nat :: SameVerdictAt(lower, snippet, q, k)
    ensures Markable(lower, snippet, q) <==> Like("%" + Escaped(q) + "%", snippet)
  {
    EscapedMeansContains(q, snippet);
    hide Like, Escaped;
    forall k: nat ensures MarkableAt(lower, snippet, q, k) <==> FoundAt(snippet, q, k) {
      assert SameVerdictAt(lower, snippet, q, k);
    }
  }

  /** A query's highlights and hits agree on every snippet exactly when the two ways of folding case agree
      on which texts of its length are equal to it. */
  lemma HighlightsAgreeExactly(lower: string -> string, q: string)
    ensures (forall t :: Markable(lower, t, q) <==> Like("%" + Escaped(q) + "%", t)) <==>
            (forall w | |w| == |q| :: SameVerdict(lower, w, q))
  {
    if forall w | |w| == |q| :: SameVerdict(lower, w, q) {
      forall t ensures Markable(lower, t, q) <==> Like("%" + Escaped(q) + "%", t) {
        forall k: nat ensures SameVerdictAt(lower, t, q, k) {
          if k + |q| <= |t| { assert |t[k..k + |q|]| == |q|; }
        }
        WindowsDecide(lower, t, q);
      }
    }
    if forall t :: Markable(lower, t, q) <==> Like("%" + Escaped(q) + "%", t) {
      forall w | |w| == |q| ensures SameVerdict(lower, w, q) {
        OneWindow(lower, w, q);
        assert Markable(lower, w, q) <==> Like("%" + Escaped(q) + "%", w);
      }
    }
  }

  /** A text as long as the query has one window. */
  lemma OneWindow(lower: string -> string, w: string, q: string)
    requires |w| == |q|
    ensures Markable(lower, w, q) <==> lower(w) == lower(q)
    ensures Like("%" + Escaped(q) + "%", w) <==> FoldAll(w) == FoldAll(q)
  {
    EscapedMeansContains(q, w);
    hide Like, Escaped;
    assert w[0..0 + |q|] == w;
    assert MarkableAt(lower, w, q, 0) <==> lower(w) == lower(q);
    assert FoundAt(w, q, 0) <==> FoldAll(w) == FoldAll(q);
    forall k: nat | k > 0 ensures !MarkableAt(lower, w, q, k) && !FoundAt(w, q, k) {}
  }

  predicate Ascii(s: string) {
    forall i | 0 <= i < |s| :: s[i] <= '\U{7F}'
  }

  /** ASCII snippets and queries are on the safe side. */
  lemma AsciiMarkedExactlyWhenMatched(lower: string -> string, snippet: string, q: string)
    requires forall s | Ascii(s) :: lower(s) == FoldAll(s)
    requires Ascii(snippet) && Ascii(q)
    ensures Markable(lower, snippet, q) <==> Like("%" + Escaped(q) + "%", snippet)
  {
    hide FoldAll, Like, Escaped;
    forall k: nat ensures SameVerdictAt(lower, snippet, q, k) {
      if k + |q| <= |snippet| { assert Ascii(snippet[k..k + |q|]); }
    }
    WindowsDecide(lower, snippet, q);
  }

  /** A query that is not: U+212A, the Kelvin sign, is `k` in lower case but SQLite keeps the two apart. */
  lemma KelvinIsMarkedButNotFound(lower: string -> string)
    requires lower("\U{212A}") == "k" && lower("k") == "k"
    ensures !SameVerdict(lower, "\U{212A}", "k")
    ensures Markable(lower, "\U{212A}", "k") && !Like("%" + Escaped("k") + "%", "\U{212A}")
  {
    var w := "\U{212A}";
    assert FoldAll(w)[0] == '\U{212A}' && FoldAll("k")[0] == 'k';
    OneWindow(lower, w, "k");
  }
}
