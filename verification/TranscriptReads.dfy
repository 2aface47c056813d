/** What a reader of a session sees (core/src/db.rs): the words that were written, by whom and in which
    order. */
module TranscriptReads {
  import opened Rows
  import opened Text
  import opened Transcript
  import opened MessageWrites
  import opened TranscriptEdits

  // ---------- the user speaks first ----------

  /** Of two entries of one turn, one the user's and one the assistant's, the user's is read first. */
  lemma UserSpeaksFirst(sessions: set<string>, messages: seq<Message>, session: string, i: nat, j: nat)
    requires MessagesSound(sessions, messages)
    requires var list := FullTranscript(messages, session);
             i < |list| && j < |list| && list[i].turn == list[j].turn && list[i].role.User? && list[j].role.Assistant?
    ensures i < j
  {
    TranscriptMembers(sessions, messages, session);
    var list := FullTranscript(messages, session);
    hide FullTranscript;
    assert list[i] in list && list[j] in list;
    assert WellFormed(sessions, list[i]) && WellFormed(sessions, list[j]);
    if j < i { OrderedAt(list, j, i); }
  }

  lemma OrderedAt(list: seq<Message>, i: nat, j: nat)
    requires Ordered(list, false) && i < j < |list|
    ensures Before(list[i], list[j])
  {}

  /** So it is in the last `n` entries, whatever `n`. */
  lemma TailUserSpeaksFirst(sessions: set<string>, messages: seq<Message>, session: string, n: nat, i: nat, j: nat)
    requires MessagesSound(sessions, messages)
    requires var list := Tail(messages, session, n);
             i < |list| && j < |list| && list[i].turn == list[j].turn && list[i].role.User? && list[j].role.Assistant?
    ensures i < j
  {
    PlacesUnique(sessions, messages, session);
    TailIsLastOfTranscript(messages, session, n);
    hide FullTranscript, Tail;
    var list := FullTranscript(messages, session);
    var skipped := if n <= |list| then |list| - n else 0;
    UserSpeaksFirst(sessions, messages, session, skipped + i, skipped + j);
  }

  /** After every run of writes and session deletions, both read so. */
  lemma RunUserSpeaksFirst(db: Db, ops: seq<AnyOp>, session: string, n: nat, i: nat, j: nat)
    requires Keyed(db)
    ensures var list := FullTranscript(AnyRun(db, ops).messages, session);
            i < |list| && j < |list| && list[i].turn == list[j].turn && list[i].role.User? && list[j].role.Assistant?
            ==> i < j
    ensures var list := Tail(AnyRun(db, ops).messages, session, n);
            i < |list| && j < |list| && list[i].turn == list[j].turn && list[i].role.User? && list[j].role.Assistant?
            ==> i < j
  {
    AnyRunKeyed(db, ops);
    var after := AnyRun(db, ops);
    hide FullTranscript, Tail;
    var list, tail := FullTranscript(after.messages, session), Tail(after.messages, session, n);
    if i < |list| && j < |list| && list[i].turn == list[j].turn && list[i].role.User? && list[j].role.Assistant? {
      UserSpeaksFirst(after.sessions.Keys, after.messages, session, i, j);
    }
    if i < |tail| && j < |tail| && tail[i].turn == tail[j].turn && tail[i].role.User? && tail[j].role.Assistant? {
      TailUserSpeaksFirst(after.sessions.Keys, after.messages, session, n, i, j);
    }
  }

  // ---------- the words written are the words read ----------

  /** The session's entry of a turn by one side. */
  predicate IsEntry(messages: seq<Message>, session: string, turn: nat, role: Role, m: Message) {
    m in FullTranscript(messages, session) && m.turn == turn && m.role == role
  }

  lemma EntryIsMessage(sessions: set<string>, messages: seq<Message>, session: string, turn: nat, role: Role,
                       m: Message)
    requires MessagesSound(sessions, messages)
    ensures IsEntry(messages, session, turn, role, m) <==>
            m in messages && m.session == session && m.turn == turn && m.role == role
    ensures IsEntry(messages, session, turn, role, m) ==> m.id == MessageId(session, turn, role)
  {
    TranscriptMembers(sessions, messages, session);
    hide FullTranscript, MessageId;
    if m in messages { assert WellFormed(sessions, m); }
  }

  /** After saving a user's message its turn has one entry of the user's, with the content saved. */
  lemma UserEntryWritten(db: Db, session: string, turn: nat, content: string, w: IndexWrite)
    requires Keyed(db) && session in db.sessions
    ensures var after := Step(db, PersistUser(session, turn, content, w)).messages;
            && (exists m :: IsEntry(after, session, turn, User, m))
            && (forall m | IsEntry(after, session, turn, User, m) :: m.content == content)
  {
    var m := UserMessage(session, turn, content);
    WrittenEntry(db, m);
    hide Upserted, IsEntry, Indexed;
  }

  /** After saving the assistant's, one of the assistant's with all that was saved. */
  lemma AssistantEntryWritten(db: Db, session: string, turn: nat, content: string, finalAnswer: Option<string>,
                              summary: Option<string>, w: IndexWrite)
    requires Keyed(db) && session in db.sessions
    ensures var after := Step(db, PersistAssistant(session, turn, content, finalAnswer, summary, w)).messages;
            && (exists m :: IsEntry(after, session, turn, Assistant, m))
            && (forall m | IsEntry(after, session, turn, Assistant, m) ::
                  m.content == content && m.finalAnswer == finalAnswer && m.summary == summary)
  {
    var m := AssistantMessage(session, turn, content, finalAnswer, summary);
    WrittenEntry(db, m);
    hide Upserted, IsEntry, Indexed, Trim;
  }

  lemma WrittenEntry(db: Db, m: Message)
    requires Keyed(db) && WellFormed(db.sessions.Keys, m)
    ensures var after := Upserted(db.messages, m);
            && (exists x :: IsEntry(after, m.session, m.turn, m.role, x))
            && (forall x | IsEntry(after, m.session, m.turn, m.role, x) ::
                  x.content == m.content && (m.role.Assistant? ==> x == m))
  {
    var after, keys := Upserted(db.messages, m), db.sessions.Keys;
    UpsertWrites(keys, db.messages, m);
    UpsertedMembers(db.messages, m);
    UpsertedSources(keys, db.messages, m, "");
    hide Upserted, MessagesSound, MessageId;
    var x :| x in after && Describes(RowOf(m, ""), x);
    EntryIsMessage(keys, after, m.session, m.turn, m.role, x);
    forall y | IsEntry(after, m.session, m.turn, m.role, y)
      ensures y.content == m.content && (m.role.Assistant? ==> y == m)
    {
      EntryIsMessage(keys, after, m.session, m.turn, m.role, y);
    }
  }

  /** A sent message is the user's and the transcript's last, one turn past the others. */
  lemma SentEntryWritten(db: Db, session: string, content: string, w: IndexWrite)
    requires Keyed(db) && session in db.sessions && !db.sessions[session].archived
    ensures var list := FullTranscript(Step(db, Append(session, content, w)).messages, session);
            && list != []
            && list[|list| - 1].role.User? && list[|list| - 1].content == content
            && list[..|list| - 1] == FullTranscript(db.messages, session)
            && forall i | 0 <= i < |list| - 1 :: list[i].turn < list[|list| - 1].turn
  {
    AppendExtendsTranscript(db, session, content, w, session);
    TranscriptMembers(db.sessions.Keys, db.messages, session);
    hide FullTranscript, MessageId;
    var before := FullTranscript(db.messages, session);
    assert forall i | 0 <= i < |before| :: before[i] in before;
  }

  /** A replacement is the user's, at the turn given, and the transcript's last. */
  lemma ReplacementWritten(db: Db, session: string, turn: nat, content: string)
    requires Keyed(db) && turn > 0 && HasUserAt(db.messages, session, turn)
    ensures var list := FullTranscript(Step(db, ReplaceFrom(session, turn, content)).messages, session);
            && list != []
            && list[|list| - 1].role.User? && list[|list| - 1].content == content && list[|list| - 1].turn == turn
            && forall i | 0 <= i < |list| - 1 :: list[i].turn < turn && list[i] in FullTranscript(db.messages, session)
  {
    ReplaceFindsRoom(db, session, turn);
    ReplaceCutsTranscript(db, session, turn, content, session);
    assert Step(db, ReplaceFrom(session, turn, content)) == ReplacedFrom(db, session, turn, content);
    var m := UserMessage(session, turn, content);
    assert m.role.User? && m.content == content && m.turn == turn;
    hide *;
    CutMembers(FullTranscript(db.messages, session), turn);
    LastOfAppended(Keep(FullTranscript(db.messages, session), Earlier(turn)), m);
  }

  lemma LastOfAppended(list: seq<Message>, m: Message)
    ensures var all := list + [m];
            |all| == |list| + 1 && all[|all| - 1] == m && forall i | 0 <= i < |list| :: all[i] == list[i]
  {}

  lemma CutMembers(list: seq<Message>, turn: nat)
    ensures var kept := Keep(list, Earlier(turn));
            forall i | 0 <= i < |kept| :: kept[i].turn < turn && kept[i] in list
  {
    KeepMembers(list, Earlier(turn));
    var kept := Keep(list, Earlier(turn));
    hide Keep;
    assert forall i | 0 <= i < |kept| :: kept[i] in kept;
  }

  /** A rebuilt index shows a user's content, and an assistant's final answer or else its content. */
  lemma RebuiltBodies(db: Db, m: Message, r: IndexRow)
    requires Keyed(db) && !BackfillSkips(db)
    requires m in db.messages && r in Backfilled(db).index && r.messageId == m.id
    ensures r.body == match m.role
                      case User => m.content
                      case Assistant => if m.finalAnswer == None then m.content else m.finalAnswer.value
  {
    var x := RebuiltFrom(db, r);
    OneMessage(db.sessions.Keys, db.messages, x, m);
  }

  /** It has a row for a message exactly when what the row would show is not all spaces. */
  lemma RebuiltRowExactly(db: Db, m: Message)
    requires Keyed(db) && !BackfillSkips(db) && m in db.messages
    ensures (exists r | r in Backfilled(db).index :: r.messageId == m.id) <==>
            var shown := match m.role
                         case User => m.content
                         case Assistant => if m.finalAnswer == None then m.content else m.finalAnswer.value;
            exists i | 0 <= i < |shown| :: shown[i] != ' '
  {
    var kept := Keep(db.messages, Indexable());
    KeepMembers(db.messages, Indexable());
    if Indexable()(m) {
      var i :| 0 <= i < |kept| && kept[i] == m;
      assert RowsOf(kept)[i] in RowsOf(kept);
    } else {
      forall r | r in Backfilled(db).index ensures r.messageId != m.id {
        var x := RebuiltFrom(db, r);
        OneMessage(db.sessions.Keys, db.messages, x, m);
      }
    }
  }

  lemma RebuiltFrom(db: Db, r: IndexRow) returns (m: Message)
    requires Keyed(db) && !BackfillSkips(db) && r in Backfilled(db).index
    ensures m in db.messages && Indexable()(m) && r == RowOf(m, Shown(m))
  {
    var kept := Keep(db.messages, Indexable());
    KeepMembers(db.messages, Indexable());
    var i :| 0 <= i < |kept| && RowsOf(kept)[i] == r;
    m := kept[i];
    assert m in kept;
  }

  // ---------- the search rows written ----------

  /** A message's row afterwards: the one row with the words given; none, if inserting it failed; as
      before, if deleting did. Rows of other messages stay as they are. */
  predicate RowWritten(before: seq<IndexRow>, after: seq<IndexRow>, session: string, turn: nat, role: Role,
                       body: string, w: IndexWrite)
  {
    var id := MessageId(session, turn, role);
    && (forall r | r in before && r.messageId != id :: r in after)
    && (forall r | r in after && r.messageId != id :: r in before)
    && match w
       case Written => IndexRow(id, session, role, turn, body) in after
                       && forall r | r in after && r.messageId == id :: r == IndexRow(id, session, role, turn, body)
       case InsertFailed => forall r | r in after :: r.messageId != id
       case DeleteFailed => after == before
  }

  lemma IndexedIsWritten(index: seq<IndexRow>, m: Message, body: string, w: IndexWrite)
    requires m.id == MessageId(m.session, m.turn, m.role)
    ensures RowWritten(index, Indexed(index, RowOf(m, body), w), m.session, m.turn, m.role, body, w)
  {
    KeepMembers(index, NotFor(m.id));
    hide MessageId, Keep;
  }

  /** A user's words are indexed when saved or sent, an assistant's only as an answer with something in it;
      nothing but messages and rows changes. */
  lemma WritesIndexTheWords(db: Db, op: Op)
    requires Keyed(db) && (op.PersistUser? || op.PersistAssistant? || op.Append?) && op.session in db.sessions
    ensures var after := Step(db, op);
            && after.sessions == db.sessions && after.events == db.events
            && match op
               case PersistUser(s, turn, content, w) => RowWritten(db.index, after.index, s, turn, User, content, w)
               case PersistAssistant(s, turn, _, Some(answer), _, w) =>
                 if Blank(answer) then after.index == db.index
                 else RowWritten(db.index, after.index, s, turn, Assistant, answer, w)
               case PersistAssistant(_, _, _, None, _, _) => after.index == db.index
               case Append(s, content, w) =>
                 if db.sessions[s].archived then after == db
                 else RowWritten(db.index, after.index, s, NextTurn(db.messages, s), User, content, w)
  {
    hide Indexed, RowWritten, Trim, MessageId, Upserted, Blank;
    match op
    case PersistUser(s, turn, content, w) =>
      IndexedIsWritten(db.index, UserMessage(s, turn, content), content, w);
    case PersistAssistant(s, turn, content, answer, summary, w) =>
      if answer.Some? {
        BlankExactly(answer.value);
        IndexedIsWritten(db.index, AssistantMessage(s, turn, content, answer, summary), answer.value, w);
      }
    case Append(s, content, w) =>
      if !db.sessions[s].archived { AppendIsFresh(db, s); }
      IndexedIsWritten(db.index, UserMessage(s, NextTurn(db.messages, s), content), content, w);
  }
}
