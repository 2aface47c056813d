/** The database's timestamp strings (core/src/db.rs, `chrono_now_iso`) and why sorting them
    as text sorts them in time. The format is the date-time of RFC 3339, section 5.6. */
module Timestamps {
  import opened Text
  import opened Calendar

  // ---------- text order ----------

  /** SQLite's BINARY order on text. */
  predicate TextLess(a: string, b: string) {
    b != "" && (a == "" || a[0] < b[0] || (a[0] == b[0] && TextLess(a[1..], b[1..])))
  }

  lemma {:induction false} TextLessNotSelf(a: string)
    ensures !TextLess(a, a)
  {
    if a != "" { TextLessNotSelf(a[1..]); }
  }

  lemma {:induction false} CommonStart(p: string, a: string, b: string)
    ensures TextLess(p + a, p + b) <==> TextLess(a, b)
  {
    if p == "" {
      assert p + a == a && p + b == b;
    } else {
      assert (p + a)[1..] == p[1..] + a && (p + b)[1..] == p[1..] + b;
      CommonStart(p[1..], a, b);
    }
  }

  lemma {:induction false} DecidedEarly(a: string, b: string, x: string, y: string)
    requires |a| == |b| && TextLess(a, b)
    ensures TextLess(a + x, b + y)
  {
    if a[0] == b[0] {
      DecidedEarly(a[1..], b[1..], x, y);
    }
    assert a != "" && (a + x)[1..] == a[1..] + x && (b + y)[1..] == b[1..] + y;
  }

  // ---------- padded numbers ----------

  function Pad(s: string, width: nat): string
    decreases width - |s|
  {
    if |s| < width then Pad("0" + s, width) else s
  }

  function Pow10(w: nat): nat {
    if w == 0 then 1 else 10 * Pow10(w - 1)
  }

  /** Exactly `w` digits. */
  function Fixed(n: nat, w: nat): (s: string)
    ensures |s| == w
  {
    if w == 0 then "" else Fixed(n / 10, w - 1) + [Digit(n % 10)]
  }

  lemma {:induction false} PadSnoc(s: string, c: char, w: nat)
    ensures Pad(s + [c], w + 1) == Pad(s, w) + [c]
    decreases w - |s|
  {
    if |s| < w {
      assert "0" + (s + [c]) == "0" + s + [c];
      PadSnoc("0" + s, c, w);
    }
  }

  lemma {:induction false} ZeroPad(w: nat)
    ensures Pad("0", w + 1) == Pad("", w + 1) == Fixed(0, w + 1)
  {
    assert "0" + "" == "0";
    if w > 0 {
      ZeroPad(w - 1);
      PadSnoc("", '0', w);
      assert "" + ['0'] == "0";
    }
  }

  /** A number that fits is written with exactly the width's digits. */
  lemma {:induction false} PadIsFixed(n: nat, w: nat)
    requires w > 0 && n < Pow10(w)
    ensures Pad(Digits(n), w) == Fixed(n, w)
  {
    if w == 1 {
      assert Pow10(1) == 10 && "" + [Digit(n)] == [Digit(n)];
    } else if n < 10 {
      ZeroPad(w - 2);
      PadSnoc("", Digit(n), w - 1);
      assert "" + [Digit(n)] == [Digit(n)];
    } else {
      PadIsFixed(n / 10, w - 1);
      PadSnoc(Digits(n / 10), Digit(n % 10), w - 1);
    }
  }

  lemma {:induction false} FixedOrder(m: nat, n: nat, w: nat)
    requires m < n < Pow10(w)
    ensures TextLess(Fixed(m, w), Fixed(n, w))
  {
    if m / 10 == n / 10 {
      CommonStart(Fixed(m / 10, w - 1), [Digit(m % 10)], [Digit(n % 10)]);
      assert Digit(m % 10) < Digit(n % 10);
    } else {
      FixedOrder(m / 10, n / 10, w - 1);
      DecidedEarly(Fixed(m / 10, w - 1), Fixed(n / 10, w - 1), [Digit(m % 10)], [Digit(n % 10)]);
    }
  }

  // ---------- timestamps ----------

  /** A number, the width it is padded to, and the text after it. */
  datatype Field = Field(value: nat, width: nat, mark: string)

  function Render(fields: seq<Field>): string {
    if fields == [] then ""
    else Pad(Digits(fields[0].value), fields[0].width) + fields[0].mark + Render(fields[1..])
  }

  function FieldsOf(secs: nat): seq<Field> {
    CountAndBack(secs / 86_400);
    var rem := secs % 86_400;
    var date := CivilFromDays(secs / 86_400);
    [Field(date.year, 4, "-"), Field(date.month, 2, "-"), Field(date.day, 2, "T"),
     Field(rem / 3600, 2, ":"), Field(rem % 3600 / 60, 2, ":"), Field(rem % 60, 2, "+00:00")]
  }

  function Timestamp(secs: nat): string {
    Render(FieldsOf(secs))
  }

  ghost predicate Fits(f: Field) {
    f.width > 0 && f.value < Pow10(f.width)
  }

  ghost predicate SameShape(fs: seq<Field>, gs: seq<Field>) {
    |fs| == |gs| && forall i | 0 <= i < |fs| :: fs[i].width == gs[i].width && fs[i].mark == gs[i].mark
  }

  /** The first field that differs is the smaller one. */
  predicate FieldsLess(fs: seq<Field>, gs: seq<Field>) {
    fs != [] && gs != [] &&
    (fs[0].value < gs[0].value || (fs[0].value == gs[0].value && FieldsLess(fs[1..], gs[1..])))
  }

  lemma {:induction false} FieldsOrder(fs: seq<Field>, gs: seq<Field>)
    requires SameShape(fs, gs) && (forall f | f in fs :: Fits(f)) && (forall g | g in gs :: Fits(g))
    requires FieldsLess(fs, gs)
    ensures TextLess(Render(fs), Render(gs))
  {
    var f, g := fs[0], gs[0];
    assert f in fs && g in gs;
    PadIsFixed(f.value, f.width);
    PadIsFixed(g.value, g.width);
    var x, y := Fixed(f.value, f.width), Fixed(g.value, g.width);
    var restF, restG := Render(fs[1..]), Render(gs[1..]);
    assert x + f.mark + restF == x + (f.mark + restF) && y + f.mark + restG == y + (f.mark + restG);
    if f.value < g.value {
      FixedOrder(f.value, g.value, f.width);
      DecidedEarly(x, y, f.mark + restF, f.mark + restG);
    } else {
      FieldsOrder(fs[1..], gs[1..]);
      CommonStart(x + f.mark, restF, restG);
    }
  }

  /** 10000-01-01T00:00:00Z: the first instant the format has no room for. */
  const LIMIT := 253_402_300_800

  lemma YearFits(secs: nat)
    requires secs < LIMIT
    ensures CivilFromDays(secs / 86_400).year <= 9999
  {
    CivilAtLimit();
    CivilMonotone(secs / 86_400, 2_932_897);
    CountAndBack(secs / 86_400);
  }

  lemma FieldsFit(secs: nat)
    requires secs < LIMIT
    ensures forall f | f in FieldsOf(secs) :: Fits(f)
  {
    CountAndBack(secs / 86_400);
    YearFits(secs);
    hide CivilFromDays;
    assert Pow10(4) == 10000 by { assert Pow10(2) == 100; }
    assert Pow10(2) == 100;
  }

  lemma {:induction false} LessAt(fs: seq<Field>, gs: seq<Field>, k: nat)
    requires k < |fs| && k < |gs| && fs[k].value < gs[k].value
    requires forall i | 0 <= i < k :: fs[i].value == gs[i].value
    ensures FieldsLess(fs, gs)
  {
    if k > 0 { LessAt(fs[1..], gs[1..], k - 1); }
  }

  lemma LaterTime(r: nat, q: nat)
    requires r < q < 86_400
    ensures r / 3600 <= q / 3600
    ensures r / 3600 == q / 3600 ==> r % 3600 / 60 <= q % 3600 / 60
    ensures r / 3600 == q / 3600 && r % 3600 / 60 == q % 3600 / 60 ==> r % 60 < q % 60
  {
    TimeOfDay(r);
    TimeOfDay(q);
    LaterParts(r / 3600, r % 3600 / 60, r % 60, q / 3600, q % 3600 / 60, q % 60);
  }

  lemma LaterParts(h: nat, m: nat, s: nat, h': nat, m': nat, s': nat)
    requires m < 60 && s < 60 && m' < 60 && s' < 60 && 3600 * h + 60 * m + s < 3600 * h' + 60 * m' + s'
    ensures h <= h' && (h == h' ==> m <= m') && (h == h' && m == m' ==> s < s')
  {}

  lemma SameDay(a: nat, b: nat)
    requires a < b
    ensures a / 86_400 <= b / 86_400
    ensures a / 86_400 == b / 86_400 ==> a % 86_400 < b % 86_400
  {}

  lemma LaterFields(a: nat, b: nat)
    requires a < b
    ensures FieldsLess(FieldsOf(a), FieldsOf(b))
  {
    hide CivilFromDays, FieldsLess;
    var fs, gs := FieldsOf(a), FieldsOf(b);
    SameDay(a, b);
    if a / 86_400 < b / 86_400 {
      CivilMonotone(a / 86_400, b / 86_400);
      LessAt(fs, gs, if fs[0].value < gs[0].value then 0 else if fs[1].value < gs[1].value then 1 else 2);
    } else {
      LaterTime(a % 86_400, b % 86_400);
      LessAt(fs, gs, if fs[3].value < gs[3].value then 3 else if fs[4].value < gs[4].value then 4 else 5);
    }
  }

  /** Earlier instants have smaller timestamps, from 1970 through year 9999. */
  lemma EarlierIsLess(a: nat, b: nat)
    requires a < b < LIMIT
    ensures TextLess(Timestamp(a), Timestamp(b))
  {
    hide FieldsLess, Render, Fits;
    FieldsFit(a);
    FieldsFit(b);
    LaterFields(a, b);
    FieldsOrder(FieldsOf(a), FieldsOf(b));
  }

  /** Text order is time order, and equal text is the same second. */
  lemma TextOrderIsTimeOrder(a: nat, b: nat)
    requires a < LIMIT && b < LIMIT
    ensures TextLess(Timestamp(a), Timestamp(b)) <==> a < b
    ensures Timestamp(a) == Timestamp(b) <==> a == b
  {
    hide Timestamp;
    TextLessNotSelf(Timestamp(a));
    if a < b {
      EarlierIsLess(a, b);
      LessIsAsymmetric(Timestamp(a), Timestamp(b));
    } else if b < a {
      EarlierIsLess(b, a);
      LessIsAsymmetric(Timestamp(b), Timestamp(a));
    }
  }

  lemma {:induction false} LessIsAsymmetric(a: string, b: string)
    requires TextLess(a, b)
    ensures !TextLess(b, a)
  {
    if a != "" && a[0] == b[0] { LessIsAsymmetric(a[1..], b[1..]); }
  }

  ghost predicate OrderedUpTo(last: nat) {
    forall a, b | 0 <= a < b <= last :: TextLess(Timestamp(a), Timestamp(b))
  }

  /** The year 10000 sorts before the year 9999. */
  lemma YearTenThousandSortsFirst()
    ensures !TextLess(Timestamp(LIMIT - 1), Timestamp(LIMIT))
  {
    YearsAtLimit();
    hide CivilFromDays, FieldsOf, Pad;
    var fs, gs := FieldsOf(LIMIT - 1), FieldsOf(LIMIT);
    FirstDigits();
    assert Render(fs) == Pad(Digits(fs[0].value), fs[0].width) + fs[0].mark + Render(fs[1..]);
    assert Render(gs) == Pad(Digits(gs[0].value), gs[0].width) + gs[0].mark + Render(gs[1..]);
    assert Render(fs)[0] == '9' && Render(gs)[0] == '1';
  }

  lemma YearsAtLimit()
    ensures FieldsOf(LIMIT - 1) != [] && FieldsOf(LIMIT - 1)[0] == Field(9999, 4, "-")
    ensures FieldsOf(LIMIT) != [] && FieldsOf(LIMIT)[0] == Field(10000, 4, "-")
  {
    hide CivilFromDays, Calendar.Valid;
    CivilAtLimit();
    CivilBeforeLimit();
    assert LIMIT / 86_400 == 2_932_897 && (LIMIT - 1) / 86_400 == 2_932_896;
    assert FieldsOf(LIMIT)[0].value == CivilFromDays(LIMIT / 86_400).year;
    assert FieldsOf(LIMIT - 1)[0].value == CivilFromDays((LIMIT - 1) / 86_400).year;
  }

  lemma CivilAtLimit()
    ensures CivilFromDays(2_932_897) == Date(10000, 1, 1)
  {
    assert 3_652_365 / 146_097 == 24 && 3_652_365 % 146_097 == 146_037;
    assert YearOfEra(146_037) == 399;
  }

  lemma CivilBeforeLimit()
    ensures CivilFromDays(2_932_896) == Date(9999, 12, 31)
  {
    assert 3_652_364 / 146_097 == 24 && 3_652_364 % 146_097 == 146_036;
    assert YearOfEra(146_036) == 399;
  }

  lemma FirstDigits()
    ensures Pad(Digits(9999), 4) == "9999" && Pad(Digits(10000), 4) == "10000"
  {
    assert Digits(99) == "99" && Digits(100) == "100";
    assert Digits(999) == "999" && Digits(1000) == "1000";
    assert Digits(9999) == "9999" && Digits(10000) == "10000";
  }

  /** Exactly how long sorting by timestamp works. */
  lemma OrderedExactly(last: nat)
    ensures OrderedUpTo(last) <==> last < LIMIT
  {
    hide Timestamp, TextLess;
    if last < LIMIT {
      forall a, b | 0 <= a < b <= last ensures TextLess(Timestamp(a), Timestamp(b)) {
        EarlierIsLess(a, b);
      }
    } else {
      YearTenThousandSortsFirst();
    }
  }

  // ---------- reading a timestamp back ----------

  /** A date and the time of its day. */
  datatype Moment = Moment(date: Date, hour: nat, minute: nat, second: nat)

  /** RFC 3339, section 5.6, with this program's offset: numbers and marks at fixed places. */
  predicate Readable(s: string) {
    && |s| == 25 && s[4] == '-' && s[7] == '-' && s[10] == 'T' && s[13] == ':' && s[16] == ':' && s[19..] == "+00:00"
    && Decimal(s[..4]) && Decimal(s[5..7]) && Decimal(s[8..10])
    && Decimal(s[11..13]) && Decimal(s[14..16]) && Decimal(s[17..19])
  }

  function Read(s: string): Moment
    requires Readable(s)
  {
    Moment(Date(ReadNumber(s[..4]), ReadNumber(s[5..7]), ReadNumber(s[8..10])),
           ReadNumber(s[11..13]), ReadNumber(s[14..16]), ReadNumber(s[17..19]))
  }

  lemma {:induction false} FixedRead(n: nat, w: nat)
    requires n < Pow10(w)
    ensures Decimal(Fixed(n, w)) && ReadNumber(Fixed(n, w)) == n
  {
    var s := Fixed(n, w);
    if w > 0 {
      FixedRead(n / 10, w - 1);
      assert s[..|s| - 1] == Fixed(n / 10, w - 1) && s[|s| - 1] == Digit(n % 10);
    }
  }

  /** The first field of a rendering, its mark, and the rest. */
  lemma RenderHead(fs: seq<Field>)
    requires fs != [] && Fits(fs[0])
    ensures var r, w, n := Render(fs), fs[0].width, |fs[0].mark|;
            && |r| == w + n + |Render(fs[1..])|
            && r[..w] == Fixed(fs[0].value, w) && r[w..w + n] == fs[0].mark && r[w + n..] == Render(fs[1..])
  {
    PadIsFixed(fs[0].value, fs[0].width);
    Three(Fixed(fs[0].value, fs[0].width), fs[0].mark, Render(fs[1..]));
  }

  lemma Three(a: string, b: string, c: string)
    ensures var r := a + b + c;
            && |r| == |a| + |b| + |c|
            && r[..|a|] == a && r[|a|..|a| + |b|] == b && r[|a| + |b|..] == c
  {}

  /** The field `i` places into a rendering, when the fields before it take `p` characters. */
  predicate StandsAt(r: string, fs: seq<Field>, i: nat, p: nat)
    requires i <= |fs|
  {
    p <= |r| && r[p..] == Render(fs[i..])
  }

  lemma FieldAt(r: string, fs: seq<Field>, i: nat, p: nat)
    requires i < |fs| && Fits(fs[i]) && StandsAt(r, fs, i, p)
    ensures var w, n := fs[i].width, |fs[i].mark|;
            && p + w + n <= |r| && r[p..p + w] == Fixed(fs[i].value, w) && r[p + w..p + w + n] == fs[i].mark
            && StandsAt(r, fs, i + 1, p + w + n)
  {
    var w, n := fs[i].width, |fs[i].mark|;
    RenderHead(fs[i..]);
    assert fs[i..][1..] == fs[i + 1..];
    hide Render, Fixed, Fits;
    SliceOfTail(r, p, 0, w);
    SliceOfTail(r, p, w, w + n);
    SliceOfTail(r, p, w + n, |r| - p);
  }

  lemma SliceOfTail(s: string, p: nat, i: nat, j: nat)
    requires p <= |s| && i <= j <= |s| - p
    ensures s[p..][i..j] == s[p + i..p + j] && s[p..][i..] == s[p + i..]
  {}

  /** Reading a timestamp gives back a calendar date and a time of day, and the second they name is the one
      the timestamp was made from. */
  lemma TimestampReadsBack(secs: nat)
    requires secs < LIMIT
    ensures Readable(Timestamp(secs))
    ensures var r := Read(Timestamp(secs));
            && r.date.year >= 1970 && Calendar.Valid(r.date) && r.hour < 24 && r.minute < 60 && r.second < 60
            && 86_400 * DaysFromCivil(r.date) + 3600 * r.hour + 60 * r.minute + r.second == secs
  {
    var days, rem := secs / 86_400, secs % 86_400;
    var date := CivilFromDays(days);
    var fs := FieldsOf(secs);
    CountAndBack(days);
    FieldsFit(secs);
    PlacesRead(fs);
    TimeOfDay(rem);
    hide *;
    assert secs == 86_400 * days + rem;
  }

  /** Shaped like a timestamp's fields. */
  ghost predicate Shaped(fs: seq<Field>) {
    && |fs| == 6 && (forall f | f in fs :: Fits(f))
    && fs[0].width == 4 && (forall i | 1 <= i < 6 :: fs[i].width == 2)
    && fs[0].mark == "-" && fs[1].mark == "-" && fs[2].mark == "T"
    && fs[3].mark == ":" && fs[4].mark == ":" && fs[5].mark == "+00:00"
  }

  lemma PlacesRead(fs: seq<Field>)
    requires Shaped(fs)
    ensures Readable(Render(fs))
    ensures Read(Render(fs)) ==
            Moment(Date(fs[0].value, fs[1].value, fs[2].value), fs[3].value, fs[4].value, fs[5].value)
  {
    var r := Render(fs);
    Places(fs);
    forall i | 0 <= i < 6
      ensures var s := Fixed(fs[i].value, fs[i].width); Decimal(s) && ReadNumber(s) == fs[i].value
    {
      assert fs[i] in fs;
      FixedRead(fs[i].value, fs[i].width);
    }
    hide Render, Fixed, ReadNumber, Fits, Decimal;
    MarksThere(r);
  }

  lemma Places(fs: seq<Field>)
    requires Shaped(fs)
    ensures var r := Render(fs);
            && |r| == 25 && r[4..5] == "-" && r[7..8] == "-" && r[10..11] == "T" && r[13..14] == ":"
            && r[16..17] == ":" && r[19..25] == "+00:00"
            && r[0..4] == Fixed(fs[0].value, 4) && r[5..7] == Fixed(fs[1].value, 2) && r[8..10] == Fixed(fs[2].value, 2)
            && r[11..13] == Fixed(fs[3].value, 2) && r[14..16] == Fixed(fs[4].value, 2)
            && r[17..19] == Fixed(fs[5].value, 2)
  {
    var r := Render(fs);
    assert StandsAt(r, fs, 0, 0) by { assert fs[0..] == fs && r[0..] == r; }
    assert forall i | 0 <= i < 6 :: Fits(fs[i]) by { assert forall i | 0 <= i < 6 :: fs[i] in fs; }
    hide Render, Fixed, Fits, StandsAt;
    DatePlaces(r, fs);
    TimePlaces(r, fs);
  }

  lemma DatePlaces(r: string, fs: seq<Field>)
    requires Shaped(fs) && StandsAt(r, fs, 0, 0) && Fits(fs[0]) && Fits(fs[1]) && Fits(fs[2])
    ensures |r| >= 11 && StandsAt(r, fs, 3, 11) && r[4..5] == "-" && r[7..8] == "-" && r[10..11] == "T"
    ensures r[0..4] == Fixed(fs[0].value, 4) && r[5..7] == Fixed(fs[1].value, 2) && r[8..10] == Fixed(fs[2].value, 2)
  {
    hide Render, Fixed, Fits, StandsAt;
    FieldAt(r, fs, 0, 0);
    FieldAt(r, fs, 1, 5);
    FieldAt(r, fs, 2, 8);
  }

  lemma TimePlaces(r: string, fs: seq<Field>)
    requires Shaped(fs) && StandsAt(r, fs, 3, 11) && Fits(fs[3]) && Fits(fs[4]) && Fits(fs[5])
    ensures |r| == 25 && r[13..14] == ":" && r[16..17] == ":" && r[19..25] == "+00:00"
    ensures r[11..13] == Fixed(fs[3].value, 2) && r[14..16] == Fixed(fs[4].value, 2)
            && r[17..19] == Fixed(fs[5].value, 2)
  {
    hide Render, Fixed, Fits, StandsAt;
    FieldAt(r, fs, 3, 11);
    FieldAt(r, fs, 4, 14);
    FieldAt(r, fs, 5, 17);
    EndsThere(r, fs, 25);
  }

  lemma EndsThere(r: string, fs: seq<Field>, p: nat)
    requires |fs| == 6 && StandsAt(r, fs, 6, p)
    ensures |r| == p
  {
    assert fs[6..] == [] && |r[p..]| == 0;
  }

  lemma MarksThere(r: string)
    requires |r| == 25 && r[4..5] == "-" && r[7..8] == "-" && r[10..11] == "T" && r[13..14] == ":" && r[16..17] == ":"
    requires r[19..25] == "+00:00"
    ensures r[4] == '-' && r[7] == '-' && r[10] == 'T' && r[13] == ':' && r[16] == ':' && r[19..] == "+00:00"
  {
    assert r[4..5][0] == '-' && r[7..8][0] == '-' && r[10..11][0] == 'T' && r[13..14][0] == ':' && r[16..17][0] == ':';
  }

  lemma TimeOfDay(rem: nat)
    requires rem < 86_400
    ensures rem / 3600 < 24 && rem % 3600 / 60 < 60 && rem % 60 < 60
    ensures 3600 * (rem / 3600) + 60 * (rem % 3600 / 60) + rem % 60 == rem
  {
    var h, left := rem / 3600, rem % 3600;
    var m, s := left / 60, left % 60;
    assert rem == 3600 * h + left && left == 60 * m + s;
    assert rem == 60 * (60 * h + m) + s;
    SecondsLeft(rem, 60 * h + m, s);
  }

  lemma SecondsLeft(x: nat, q: nat, s: nat)
    requires x == 60 * q + s && s < 60
    ensures x % 60 == s
  {}
}
