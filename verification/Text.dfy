/** Strings as the programs use them: searching and joining. */
module Text {

  datatype Option<+T> = None | Some(value: T)

  // ---------- searching ----------

  predicate OccursAt(text: string, needle: string, k: int) {
    0 <= k && k + |needle| <= |text| && forall i | 0 <= i < |needle| :: text[k + i] == needle[i]
  }

  predicate Contains(text: string, needle: string) {
    IndexOf(text, needle, 0) >= 0
  }

  /** Python's `str.find`: the leftmost occurrence at or after `from`, or -1. */
  function IndexOf(text: string, needle: string, from: nat): (j: int)
    ensures j == -1 || from <= j
    ensures j != -1 ==> OccursAt(text, needle, j) && j + |needle| <= |text|
    ensures forall k | from <= k && (j == -1 || k < j) :: !OccursAt(text, needle, k)
    decreases |text| - from
  {
    if from + |needle| > |text| then -1
    else if OccursAt(text, needle, from) then from
    else IndexOf(text, needle, from + 1)
  }

  /** Searching from `from` is searching the rest of the text. */
  lemma IndexOfSuffix(text: string, needle: string, from: nat)
    requires from <= |text|
    ensures var j := IndexOf(text[from..], needle, 0);
            IndexOf(text, needle, from) == if j == -1 then -1 else from + j
  {
    var i, j := IndexOf(text, needle, from), IndexOf(text[from..], needle, 0);
    if i != -1 { assert OccursAt(text[from..], needle, i - from); }
    if j != -1 { assert OccursAt(text, needle, from + j); }
  }

  // ---------- joining ----------

  function Concat(pieces: seq<string>): string {
    if pieces == [] then "" else pieces[0] + Concat(pieces[1..])
  }

  lemma {:induction false} ConcatSnoc(pieces: seq<string>, last: string)
    ensures Concat(pieces + [last]) == Concat(pieces) + last
  {
    if pieces == [] {
      assert pieces + [last] == [last];
    } else {
      assert (pieces + [last])[1..] == pieces[1..] + [last];
      ConcatSnoc(pieces[1..], last);
    }
  }

  // ---------- trimming ----------

  /** Unicode's White_Space property, which Rust's `trim` uses. */
  predicate IsSpace(c: char) {
    '\t' <= c <= '\r' || c == ' ' || c == '\U{0085}' || c == '\U{00A0}' || c == '\U{1680}'
    || '\U{2000}' <= c <= '\U{200A}' || c == '\U{2028}' || c == '\U{2029}' || c == '\U{202F}'
    || c == '\U{205F}' || c == '\U{3000}'
  }

  function TrimStart(s: string): string {
    if s != "" && IsSpace(s[0]) then TrimStart(s[1..]) else s
  }

  function Trim(s: string): string {
    TrimEnd(TrimStart(s))
  }

  function TrimEnd(s: string): string {
    if s != "" && IsSpace(s[|s| - 1]) then TrimEnd(s[..|s| - 1]) else s
  }

  predicate Blank(s: string) {
    forall i | 0 <= i < |s| :: IsSpace(s[i])
  }

  /** Trimming takes the white space from both ends, all of it and nothing else. */
  lemma TrimCuts(s: string) returns (a: string, b: string)
    ensures s == a + Trim(s) + b && Blank(a) && Blank(b)
    ensures Trim(s) != "" ==> !IsSpace(Trim(s)[0]) && !IsSpace(Trim(s)[|Trim(s)| - 1])
  {
    a := TrimStartCuts(s);
    b := TrimEndCuts(TrimStart(s));
  }

  lemma BlankExactly(s: string)
    ensures Trim(s) == "" <==> Blank(s)
  {
    var a, b := TrimCuts(s);
    var t := Trim(s);
    hide Trim, IsSpace;
    if t != "" { assert s[|a|] == t[0]; }
  }

  lemma {:induction false} TrimStartCuts(s: string) returns (a: string)
    ensures s == a + TrimStart(s) && Blank(a)
    ensures TrimStart(s) != "" ==> !IsSpace(TrimStart(s)[0])
  {
    a := "";
    if s != "" && IsSpace(s[0]) {
      a := TrimStartCuts(s[1..]);
      a := [s[0]] + a;
    }
  }

  lemma {:induction false} TrimEndCuts(s: string) returns (b: string)
    ensures s == TrimEnd(s) + b && Blank(b)
    ensures TrimEnd(s) != "" ==> !IsSpace(TrimEnd(s)[|TrimEnd(s)| - 1]) && TrimEnd(s)[0] == s[0]
  {
    b := "";
    if s != "" && IsSpace(s[|s| - 1]) {
      b := TrimEndCuts(s[..|s| - 1]);
      b := b + [s[|s| - 1]];
    }
  }

  // ---------- decimal numbers ----------

  function Digit(n: nat): char
    requires n < 10
  {
    '0' + n as char
  }

  function Digits(n: nat): (s: string)
    ensures s != "" && forall i | 0 <= i < |s| :: '0' <= s[i] <= '9'
  {
    if n < 10 then [Digit(n)] else Digits(n / 10) + [Digit(n % 10)]
  }

  lemma {:induction false} DigitsInjective(m: nat, n: nat)
    requires Digits(m) == Digits(n)
    ensures m == n
  {
    var ms, ns := Digits(m), Digits(n);
    assert ms[|ms| - 1] == ns[|ns| - 1];
    assert m % 10 == n % 10;
    if m >= 10 && n >= 10 {
      assert ms[..|ms| - 1] == Digits(m / 10) && ns[..|ns| - 1] == Digits(n / 10);
      DigitsInjective(m / 10, n / 10);
    }
  }

  predicate Decimal(s: string) {
    forall i | 0 <= i < |s| :: '0' <= s[i] <= '9'
  }

  /** The number that decimal digits stand for. */
  function ReadNumber(s: string): nat
    requires Decimal(s)
  {
    if s == "" then 0 else 10 * ReadNumber(s[..|s| - 1]) + (s[|s| - 1] - '0') as nat
  }

  /** Digits are read back as the number. */
  lemma {:induction false} DigitsRead(n: nat)
    ensures ReadNumber(Digits(n)) == n
  {
    var s := Digits(n);
    if n >= 10 {
      DigitsRead(n / 10);
      assert s[..|s| - 1] == Digits(n / 10) && s[|s| - 1] == Digit(n % 10);
    } else {
      assert s[..|s| - 1] == "";
    }
  }

  // ---------- names built from parts ----------

  /** Cutting at the last underscore is unambiguous when what follows has none. */
  lemma LastUnderscore(p: string, d: string, q: string, e: string)
    requires p != "" && p[|p| - 1] == '_' && '_' !in d
    requires q != "" && q[|q| - 1] == '_' && '_' !in e
    requires p + d == q + e
    ensures p == q && d == e
  {
    var whole := p + d;
    if |q| < |p| { TailCharacter(q, e, |p| - 1); }
    if |p| < |q| { TailCharacter(p, d, |q| - 1); }
    assert p == whole[..|p|] && q == whole[..|q|] && d == whole[|p|..] && e == whole[|q|..];
  }

  lemma TailCharacter(q: string, e: string, i: int)
    requires |q| <= i < |q| + |e|
    ensures (q + e)[i] in e
  {
    assert (q + e)[i] == e[i - |q|];
  }
}
