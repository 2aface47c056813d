/** Messages as the database keeps them (core/src/db.rs): their ids, and the transcript a session
    reads back. */
module Transcript {
  import opened Rows
  import opened Text

  datatype Role = User | Assistant

  datatype Message = Message(id: string, session: string, turn: nat, sequence: nat, role: Role,
                             content: string, finalAnswer: Option<string>, summary: Option<string>)

  // ---------- ids ----------

  function RoleName(role: Role): string {
    if role.User? then "user" else "assistant"
  }

  /** Within a turn the user speaks first. */
  function SequenceOf(role: Role): nat {
    if role.User? then 0 else 1
  }

  function MessageId(session: string, turn: nat, role: Role): string {
    "msg_" + session + "_" + Digits(turn) + "_" + RoleName(role)
  }

  /** The id without its role, and the id. */
  lemma IdParts(session: string, turn: nat, role: Role)
    ensures MessageId(session, turn, role) == (("msg_" + session + "_") + Digits(turn)) + ("_" + RoleName(role))
    ensures var id := MessageId(session, turn, role); id != "" && id[|id| - 1] == (if role.User? then 'r' else 't')
  {}

  lemma CutEnds(a: string, b: string, end: string)
    requires a + end == b + end
    ensures a == b
  {
    assert a == (a + end)[..|a + end| - |end|] && b == (b + end)[..|b + end| - |end|];
  }

  lemma CutMiddle(start: string, s: string, t: string, end: string)
    requires start + s + end == start + t + end
    ensures s == t
  {
    CutEnds(start + s, start + t, end);
    assert s == (start + s)[|start|..] && t == (start + t)[|start|..];
  }

  /** No two messages share an id, whatever characters a session's id has. */
  lemma IdsDistinguish(s: string, t: nat, r: Role, s': string, t': nat, r': Role)
    requires MessageId(s, t, r) == MessageId(s', t', r')
    ensures s == s' && t == t' && r == r'
  {
    IdParts(s, t, r);
    IdParts(s', t', r');
    hide MessageId, RoleName;
    var p, p' := "msg_" + s + "_", "msg_" + s' + "_";
    CutEnds(p + Digits(t), p' + Digits(t'), "_" + RoleName(r));
    LastUnderscore(p, Digits(t), p', Digits(t'));
    DigitsInjective(t, t');
    CutMiddle("msg_", s, s', "_");
  }

  // ---------- reading a session back ----------

  /** `ORDER BY turn_index, sequence`. */
  predicate Before(a: Message, b: Message) {
    a.turn < b.turn || (a.turn == b.turn && a.sequence < b.sequence)
  }

  predicate Precedes(a: Message, b: Message, newestFirst: bool) {
    if newestFirst then Before(b, a) else Before(a, b)
  }

  function Insert(m: Message, rows: seq<Message>, newestFirst: bool): seq<Message> {
    if rows == [] || Precedes(m, rows[0], newestFirst) then [m] + rows
    else [rows[0]] + Insert(m, rows[1..], newestFirst)
  }

  function OrderBy(rows: seq<Message>, newestFirst: bool): seq<Message> {
    if rows == [] then [] else Insert(rows[0], OrderBy(rows[1..], newestFirst), newestFirst)
  }

  predicate Ordered(rows: seq<Message>, newestFirst: bool) {
    forall i, j | 0 <= i < j < |rows| :: Precedes(rows[i], rows[j], newestFirst)
  }

  /** No two rows tie. */
  predicate DistinctPlaces(rows: seq<Message>) {
    forall i, j | 0 <= i < j < |rows| :: Before(rows[i], rows[j]) || Before(rows[j], rows[i])
  }

  lemma {:induction false} InsertOrdered(m: Message, rows: seq<Message>, newestFirst: bool)
    requires Ordered(rows, newestFirst)
    requires forall x | x in rows :: Before(m, x) || Before(x, m)
    ensures Ordered(Insert(m, rows, newestFirst), newestFirst)
    ensures forall x :: x in Insert(m, rows, newestFirst) <==> x == m || x in rows
    ensures |Insert(m, rows, newestFirst)| == |rows| + 1
  {
    if rows == [] || Precedes(m, rows[0], newestFirst) {
    } else {
      InsertOrdered(m, rows[1..], newestFirst);
      assert Precedes(rows[0], m, newestFirst);
      var rest := Insert(m, rows[1..], newestFirst);
      forall x | x in rest ensures Precedes(rows[0], x, newestFirst) {
        if x != m { assert x in rows[1..]; }
      }
      forall j | 0 <= j < |rest| ensures Precedes(rows[0], rest[j], newestFirst) { assert rest[j] in rest; }
      forall x ensures x in rows <==> x == rows[0] || x in rows[1..] {}
    }
  }

  lemma {:induction false} OrderByOrders(rows: seq<Message>, newestFirst: bool)
    requires DistinctPlaces(rows)
    ensures Ordered(OrderBy(rows, newestFirst), newestFirst)
    ensures forall x :: x in OrderBy(rows, newestFirst) <==> x in rows
    ensures |OrderBy(rows, newestFirst)| == |rows|
  {
    if rows != [] {
      OrderByOrders(rows[1..], newestFirst);
      forall x ensures x in rows <==> x == rows[0] || x in rows[1..] {}
      InsertOrdered(rows[0], OrderBy(rows[1..], newestFirst), newestFirst);
    }
  }

  lemma NoMembers(s: seq<Message>)
    requires forall x :: x !in s
    ensures s == []
  {
    if s != [] { FirstIsMember(s); }
  }

  lemma FirstIsMember(s: seq<Message>)
    requires s != []
    ensures exists x :: x in s
  {
    assert s[0] in s;
  }

  /** An ordered list is determined by its members. */
  lemma {:induction false} OrderedUnique(a: seq<Message>, b: seq<Message>)
    requires Ordered(a, false) && Ordered(b, false)
    requires forall x :: x in a <==> x in b
    ensures a == b
  {
    if a == [] {
      NoMembers(b);
    } else if b == [] {
      NoMembers(a);
    } else {
      assert a[0] in b && b[0] in a;
      assert a[0] == b[0];
      forall x ensures x in a[1..] <==> x in b[1..] {
        if x in a[1..] { assert x in a && x != a[0]; }
        if x in b[1..] { assert x in b && x != b[0]; }
      }
      OrderedUnique(a[1..], b[1..]);
    }
  }

  function Reversed<T>(s: seq<T>): (r: seq<T>)
    ensures |r| == |s|
  {
    seq(|s|, i requires 0 <= i < |s| => s[|s| - 1 - i])
  }

  /** A session's rows, and its full transcript, oldest first. */
  function InSession(session: string): Message -> bool {
    (m: Message) => m.session == session
  }

  function FullTranscript(messages: seq<Message>, session: string): seq<Message> {
    OrderBy(Keep(messages, InSession(session)), false)
  }

  function LastOf<T>(s: seq<T>, n: nat): seq<T> {
    if n <= |s| then s[|s| - n..] else s
  }

  /** The newest `n` rows, turned round. */
  function Tail(messages: seq<Message>, session: string, n: nat): seq<Message> {
    var newest := OrderBy(Keep(messages, InSession(session)), true);
    Reversed(if n <= |newest| then newest[..n] else newest)
  }

  /** Reading a tail is reading the whole transcript and keeping its last `n` entries. */
  lemma TailIsLastOfTranscript(messages: seq<Message>, session: string, n: nat)
    requires DistinctPlaces(Keep(messages, InSession(session)))
    ensures Tail(messages, session, n) == LastOf(FullTranscript(messages, session), n)
  {
    NewestTurned(Keep(messages, InSession(session)));
    hide OrderBy, Keep, Reversed;
    var newest := OrderBy(Keep(messages, InSession(session)), true);
    if n <= |newest| { ReversedTakes(newest, n); }
  }

  /** Newest first, turned round, is oldest first. */
  lemma NewestTurned(rows: seq<Message>)
    requires DistinctPlaces(rows)
    ensures Reversed(OrderBy(rows, true)) == OrderBy(rows, false)
  {
    var newest, oldest := OrderBy(rows, true), OrderBy(rows, false);
    OrderByOrders(rows, true);
    OrderByOrders(rows, false);
    hide OrderBy, Before, Ordered, Reversed, DistinctPlaces;
    ReversedOrdered(newest);
    OrderedUnique(Reversed(newest), oldest);
  }

  lemma ReversedOrdered(newest: seq<Message>)
    requires Ordered(newest, true)
    ensures Ordered(Reversed(newest), false)
    ensures forall x :: x in Reversed(newest) <==> x in newest
  {
    hide Before;
    forall x | x in newest ensures x in Reversed(newest) {
      var i :| 0 <= i < |newest| && newest[i] == x;
      assert Reversed(newest)[|newest| - 1 - i] == x;
    }
  }

  lemma ReversedTakes<T>(s: seq<T>, n: nat)
    requires n <= |s|
    ensures Reversed(s[..n]) == Reversed(s)[|s| - n..]
  {}
}
