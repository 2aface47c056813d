/** What the message writes do to a transcript and to its search rows. */
module TranscriptEdits {
  import opened Rows
  import opened Text
  import opened Transcript
  import opened MessageWrites

  // ---------- transcripts ----------

  /** A transcript is the one ordered list of the session's messages. */
  lemma TranscriptIs(sessions: set<string>, messages: seq<Message>, session: string, list: seq<Message>)
    requires MessagesSound(sessions, messages) && Ordered(list, false)
    requires forall m :: m in list <==> m in messages && m.session == session
    ensures FullTranscript(messages, session) == list
  {
    hide MessagesSound, Ordered;
    PlacesUnique(sessions, messages, session);
    KeepMembers(messages, InSession(session));
    OrderByOrders(Keep(messages, InSession(session)), false);
    OrderedUnique(FullTranscript(messages, session), list);
  }

  lemma TranscriptMembers(sessions: set<string>, messages: seq<Message>, session: string)
    requires MessagesSound(sessions, messages)
    ensures Ordered(FullTranscript(messages, session), false)
    ensures forall m :: m in FullTranscript(messages, session) <==> m in messages && m.session == session
  {
    hide MessagesSound, Ordered;
    PlacesUnique(sessions, messages, session);
    KeepMembers(messages, InSession(session));
    OrderByOrders(Keep(messages, InSession(session)), false);
  }

  lemma OrderedSnoc(list: seq<Message>, m: Message)
    requires Ordered(list, false) && forall x | x in list :: Before(x, m)
    ensures Ordered(list + [m], false)
  {
    forall i | 0 <= i < |list| ensures Before(list[i], m) { assert list[i] in list; }
  }

  /** Appending adds one entry at the end of one transcript. */
  lemma AppendExtendsTranscript(db: Db, session: string, content: string, w: IndexWrite, other: string)
    requires Keyed(db) && session in db.sessions && !db.sessions[session].archived
    ensures var after := Appended(db, session, content, w);
            FullTranscript(after.messages, other) == FullTranscript(db.messages, other)
              + if other == session then [UserMessage(session, NextTurn(db.messages, session), content)] else []
  {
    AppendIsFresh(db, session);
    AppendStepKeyed(db, session, content, w);
    var m := UserMessage(session, NextTurn(db.messages, session), content);
    var list := FullTranscript(db.messages, other);
    TranscriptMembers(db.sessions.Keys, db.messages, other);
    if other == session { OrderedSnoc(list, m); }
    hide FullTranscript, Ordered, MessagesSound, NextTurn;
    TranscriptIs(db.sessions.Keys, db.messages + [m], other, list + if other == session then [m] else []);
  }

  function Earlier(turn: nat): Message -> bool {
    (m: Message) => m.turn < turn
  }

  lemma KeptOrdered(list: seq<Message>, kept: Message -> bool)
    requires Ordered(list, false)
    ensures Ordered(Keep(list, kept), false)
  {
    var before := (a: Message, b: Message) => Before(a, b);
    assert Pairwise(list, before);
    KeepPairwise(list, kept, before);
    var k := Keep(list, kept);
    assert forall i, j | 0 <= i < j < |k| :: before(k[i], k[j]);
  }

  /** Replacing from turn `t` cuts the transcript before `t` and puts the one new message there; the
      other sessions' transcripts stay as they were. */
  lemma ReplaceCutsTranscript(db: Db, session: string, turn: nat, content: string, other: string)
    requires Keyed(db) && ReplaceReply(db, session, turn) == Done
    ensures var after := ReplacedFrom(db, session, turn, content);
            FullTranscript(after.messages, other) ==
            if other == session then
              Keep(FullTranscript(db.messages, session), Earlier(turn)) + [UserMessage(session, turn, content)]
            else FullTranscript(db.messages, other)
  {
    var m := UserMessage(session, turn, content);
    var after := ReplacedFrom(db, session, turn, content);
    ReplaceStepKeyed(db, session, turn, content);
    KeepMembers(db.messages, Survives(session, turn));
    TranscriptMembers(db.sessions.Keys, db.messages, other);
    var list := FullTranscript(db.messages, other);
    if other == session {
      KeptOrdered(list, Earlier(turn));
      KeepMembers(list, Earlier(turn));
      OrderedSnoc(Keep(list, Earlier(turn)), m);
      hide FullTranscript, Ordered, Keep, MessagesSound, IndexSound, PreviousSummary, ReplaceReply;
      TranscriptIs(after.sessions.Keys, after.messages, session, Keep(list, Earlier(turn)) + [m]);
    } else {
      hide FullTranscript, Ordered, Keep, MessagesSound, IndexSound, PreviousSummary, ReplaceReply;
      TranscriptIs(after.sessions.Keys, after.messages, other, list);
    }
  }

  /** The tail of the cut transcript ends in the replacement. */
  lemma ReplaceShowsLast(db: Db, session: string, turn: nat, content: string)
    requires Keyed(db) && ReplaceReply(db, session, turn) == Done
    ensures Tail(ReplacedFrom(db, session, turn, content).messages, session, 1) == [UserMessage(session, turn, content)]
  {
    var after := ReplacedFrom(db, session, turn, content);
    ReplaceStepKeyed(db, session, turn, content);
    ReplaceCutsTranscript(db, session, turn, content, session);
    PlacesUnique(after.sessions.Keys, after.messages, session);
    TailIsLastOfTranscript(after.messages, session, 1);
  }

  /** Search rows and tool events from the turn on are gone, and no others. */
  lemma ReplaceCutsIndex(db: Db, session: string, turn: nat, content: string, r: IndexRow, e: ToolEvent)
    requires Sound(db) && ReplaceReply(db, session, turn) == Done
    ensures var after := ReplacedFrom(db, session, turn, content);
            && (r in after.index <==> r == RowOf(UserMessage(session, turn, content), content)
                                      || (r in db.index && !(r.session == session && r.turn >= turn)))
            && (e in after.events <==> e in db.events && !(e.session == session && e.turn >= turn))
  {
    var ids := IdsFrom(db.messages, session, turn);
    KeepMember(db.index, NotAmong(ids), r);
    KeepMember(db.events, EventSurvives(session, turn), e);
    if r in db.index {
      var m :| m in db.messages && Describes(r, m);
      if r.messageId in ids {
        var x :| x in db.messages && x.session == session && x.turn >= turn && x.id == r.messageId;
        IdsDistinguish(x.session, x.turn, x.role, m.session, m.turn, m.role);
      } else {
        assert !(m.session == session && m.turn >= turn);
      }
    }
  }

  /** An answer of the session from before the turn, with a summary that is not all spaces. */
  predicate SummaryBefore(m: Message, session: string, turn: nat) {
    && m.session == session && m.role == Assistant && m.turn < turn
    && m.summary != None && exists i | 0 <= i < |m.summary.value| :: m.summary.value[i] != ' '
  }

  /** Among those the newest. */
  predicate IsNewestSummary(messages: seq<Message>, session: string, turn: nat, m: Message) {
    && m in messages && SummaryBefore(m, session, turn)
    && forall x | x in messages && SummaryBefore(x, session, turn) :: x == m || Before(x, m)
  }

  /** The session keeps the newest summary from before the turn, or none if there is none, and counts the
      turns before it; no other session changes. */
  lemma ReplaceRestoresSummary(db: Db, session: string, turn: nat, content: string)
    requires Keyed(db) && ReplaceReply(db, session, turn) == Done
    ensures session in db.sessions
    ensures var after := ReplacedFrom(db, session, turn, content).sessions;
            && session in after
            && after == db.sessions[session := db.sessions[session].(turnCount := turn - 1,
                                                                     summary := after[session].summary)]
            && (after[session].summary == None || exists m :: IsNewestSummary(db.messages, session, turn, m)
                                                              && after[session].summary == m.summary)
            && ((exists m | m in db.messages :: SummaryBefore(m, session, turn)) ==> after[session].summary.Some?)
  {
    var x :| x in db.messages && x.session == session && x.turn == turn && x.role.User?;
    assert WellFormed(db.sessions.Keys, x);
    SummaryIsNewest(db.sessions.Keys, db.messages, session, turn);
    hide PreviousSummary, Keep, IsNewestSummary;
  }

  lemma SummaryIsNewest(sessions: set<string>, messages: seq<Message>, session: string, turn: nat)
    requires MessagesSound(sessions, messages)
    ensures var s := PreviousSummary(messages, session, turn);
            && (s == None || exists m :: IsNewestSummary(messages, session, turn, m) && s == m.summary)
            && ((exists m | m in messages :: SummaryBefore(m, session, turn)) ==> s.Some?)
  {
    var kept := Summarised(session, turn);
    assert forall m :: kept(m) <==> SummaryBefore(m, session, turn);
    hide SummaryBefore, Summarised;
    var rows := Keep(messages, kept);
    KeepMembers(messages, kept);
    SummariesOrdered(sessions, messages, session, turn);
    var list := OrderBy(rows, true);
    if list != [] {
      var m := list[0];
      assert m in list;
      forall x | x in messages && kept(x) ensures x == m || Before(x, m) {
        assert x in list;
        var i :| 0 <= i < |list| && list[i] == x;
        if i > 0 { assert Precedes(list[0], list[i], true); }
      }
      assert IsNewestSummary(messages, session, turn, m);
    }
  }

  lemma SummariesOrdered(sessions: set<string>, messages: seq<Message>, session: string, turn: nat)
    requires MessagesSound(sessions, messages)
    ensures var rows := Keep(messages, Summarised(session, turn));
            Ordered(OrderBy(rows, true), true) && forall x :: x in OrderBy(rows, true) <==> x in rows
  {
    var kept := Summarised(session, turn);
    var rows := Keep(messages, kept);
    KeepMembers(messages, kept);
    KeptMessagesSound(sessions, messages, kept);
    forall i, j | 0 <= i < j < |rows| ensures Before(rows[i], rows[j]) || Before(rows[j], rows[i]) {
      assert rows[i] in rows && rows[j] in rows;
      assert WellFormed(sessions, rows[i]) && WellFormed(sessions, rows[j]);
    }
    OrderByOrders(rows, true);
  }

  /** An upsert leaves one message of that id. An assistant's is exactly the one written; a user's keeps
      its other columns. No other message changes. */
  lemma UpsertWrites(sessions: set<string>, messages: seq<Message>, m: Message)
    requires MessagesSound(sessions, messages) && WellFormed(sessions, m)
    ensures var after := Upserted(messages, m);
            && MessagesSound(sessions, after) && HasId(after, m.id)
            && |after| == |messages| + (if HasId(messages, m.id) then 0 else 1)
            && (forall x: Message | x.id != m.id :: x in after <==> x in messages)
            && (forall x | x in after && x.id == m.id ::
                  x == m || (m.role.User? && exists y | y in messages :: y.id == m.id && x == y.(content := m.content)))
  {
    var after := Upserted(messages, m);
    UpsertedSound(sessions, messages, m);
    UpsertedSources(sessions, messages, m, "");
    UpsertedMembers(messages, m);
    forall x: Message | x.id != m.id && x in messages ensures x in after {
      var i :| 0 <= i < |messages| && messages[i] == x;
      assert after[i] == x;
    }
    forall x | x in after && x.id == m.id
      ensures x == m || (m.role.User? && exists y | y in messages :: y.id == m.id && x == y.(content := m.content))
    {
      var i :| 0 <= i < |after| && after[i] == x;
      if i < |messages| {
        var y := messages[i];
        assert y in messages && x == Refreshed(y, m);
        IdsDistinguish(y.session, y.turn, y.role, m.session, m.turn, m.role);
      }
    }
  }

  // ---------- search rows show what the messages say ----------

  /** Every user message's row, if there is one, carries its current content. */
  predicate UserRowsCurrent(db: Db) {
    forall r, m | r in db.index && m in db.messages && r.messageId == m.id && m.role.User? :: r.body == m.content
  }

  predicate HasRow(index: seq<IndexRow>, id: string) {
    exists r | r in index :: r.messageId == id
  }

  predicate UserRowsComplete(db: Db) {
    forall m | m in db.messages && m.role.User? && !SqlBlank(m.content) :: HasRow(db.index, m.id)
  }

  /** The outcome of an operation's index write; the others write inside their transaction. */
  function WriteOf(op: Op): IndexWrite {
    if op.PersistUser? || op.PersistAssistant? || op.Append? then op.w else Written
  }

  lemma UpsertedUserCurrent(db: Db, m: Message, w: IndexWrite)
    requires Sound(db) && WellFormed(db.sessions.Keys, m) && m.role.User? && w != DeleteFailed
    requires UserRowsCurrent(db)
    ensures UserRowsCurrent(db.(messages := Upserted(db.messages, m),
                                index := Indexed(db.index, RowOf(m, m.content), w)))
    ensures UserRowsComplete(db) && w == Written ==>
            UserRowsComplete(db.(messages := Upserted(db.messages, m),
                                 index := Indexed(db.index, RowOf(m, m.content), w)))
  {
    var after, index := Upserted(db.messages, m), Indexed(db.index, RowOf(m, m.content), w);
    KeepMembers(db.index, NotFor(m.id));
    UpsertedMembers(db.messages, m);
    hide Upserted, Keep, Sound;
    if UserRowsComplete(db) && w == Written {
      forall x | x in after && x.role.User? && !SqlBlank(x.content) ensures HasRow(index, x.id) {
        if x.id == m.id {
          assert RowOf(m, m.content) in index;
        } else {
          var r :| r in db.index && r.messageId == x.id;
          assert r in index;
        }
      }
    }
  }

  /** Every message after an upsert is the one upserted or an untouched one. */
  lemma UpsertedMembers(messages: seq<Message>, m: Message)
    ensures forall x | x in Upserted(messages, m) :: if x.id == m.id then x.content == m.content else x in messages
  {
    var after := Upserted(messages, m);
    forall x | x in after ensures if x.id == m.id then x.content == m.content else x in messages {
      var i :| 0 <= i < |after| && after[i] == x;
      if HasId(messages, m.id) { assert messages[i] in messages; }
      else if i < |messages| { assert messages[i] in messages && messages[i].id != m.id; }
    }
  }

  lemma AssistantLeavesUserRows(db: Db, m: Message, w: IndexWrite)
    requires Sound(db) && WellFormed(db.sessions.Keys, m) && m.role.Assistant? && UserRowsCurrent(db)
    ensures UserRowsCurrent(PersistedAssistant(db, m, w))
    ensures UserRowsComplete(db) ==> UserRowsComplete(PersistedAssistant(db, m, w))
  {
    var after := PersistedAssistant(db, m, w);
    UpsertStepSound(db, m, if m.finalAnswer.Some? then m.finalAnswer.value else "", w);
    assert Sound(after);
    KeepMembers(db.index, NotFor(m.id));
    UpsertedMembers(db.messages, m);
    hide Upserted, Keep, Trim;
    forall x | x in after.messages && x.role.User? ensures x.id != m.id && x in db.messages {
      if x.id == m.id { IdsDistinguish(x.session, x.turn, x.role, m.session, m.turn, m.role); }
    }
    if UserRowsComplete(db) {
      forall x | x in after.messages && x.role.User? && !SqlBlank(x.content) ensures HasRow(after.index, x.id) {
        var r :| r in db.index && r.messageId == x.id;
        assert r in after.index;
      }
    }
  }

  lemma ReplaceLeavesUserRows(db: Db, session: string, turn: nat, content: string)
    requires Sound(db) && UserRowsCurrent(db)
    ensures UserRowsCurrent(ReplacedFrom(db, session, turn, content))
    ensures UserRowsComplete(db) ==> UserRowsComplete(ReplacedFrom(db, session, turn, content))
  {
    if ReplaceReply(db, session, turn) == Done {
      var after := ReplacedFrom(db, session, turn, content);
      var ids := IdsFrom(db.messages, session, turn);
      var m := UserMessage(session, turn, content);
      ReplaceStepSound(db, session, turn, content);
      KeepMembers(db.messages, Survives(session, turn));
      KeepMembers(db.index, NotAmong(ids));
      forall x, r | x in after.messages && r in after.index && r.messageId == x.id && x.role.User?
        ensures r.body == x.content
      {
        OneRow(after.index, RowOf(m, content), r);
        OneMessage(after.sessions.Keys, after.messages, m, x);
      }
      if UserRowsComplete(db) {
        forall x | x in after.messages && x.role.User? && !SqlBlank(x.content) ensures HasRow(after.index, x.id) {
          if x == m {
            assert RowOf(m, content) in after.index;
          } else {
            assert x in db.messages && !(x.session == session && x.turn >= turn);
            var r :| r in db.index && r.messageId == x.id;
            NotCut(db, session, turn, x);
            assert r in after.index;
          }
        }
      }
    }
  }

  lemma NotCut(db: Db, session: string, turn: nat, x: Message)
    requires Sound(db) && x in db.messages && !(x.session == session && x.turn >= turn)
    ensures x.id !in IdsFrom(db.messages, session, turn)
  {
    forall y | y in db.messages && y.session == session && y.turn >= turn ensures y.id != x.id {
      OneMessage(db.sessions.Keys, db.messages, x, y);
    }
  }

  lemma OneMessage(sessions: set<string>, messages: seq<Message>, a: Message, b: Message)
    requires MessagesSound(sessions, messages) && a in messages && b in messages
    ensures a.id == b.id ==> a == b
  {}

  lemma OneRow(index: seq<IndexRow>, a: IndexRow, b: IndexRow)
    requires DistinctRows(index) && a in index && b in index
    ensures a.messageId == b.messageId ==> a == b
  {}

  lemma BackfillShowsUsers(db: Db)
    requires Sound(db) && UserRowsCurrent(db)
    ensures UserRowsCurrent(Backfilled(db))
    ensures UserRowsComplete(db) ==> UserRowsComplete(Backfilled(db))
  {
    if !BackfillSkips(db) {
      var messages := Keep(db.messages, Indexable());
      var index := RowsOf(messages);
      KeepMembers(db.messages, Indexable());
      forall r, x | r in index && x in db.messages && r.messageId == x.id && x.role.User?
        ensures r.body == x.content
      {
        var i :| 0 <= i < |index| && index[i] == r;
        assert messages[i] in messages;
        OneMessage(db.sessions.Keys, db.messages, messages[i], x);
      }
      forall x | x in db.messages && x.role.User? && !SqlBlank(x.content) ensures HasRow(index, x.id) {
        assert x in messages;
        var i :| 0 <= i < |messages| && messages[i] == x;
        assert index[i] in index;
      }
    }
  }

  /** Saving a user message again while the old row cannot be deleted, and that row says something else. */
  predicate LeavesOldWords(db: Db, op: Op) {
    op.PersistUser? && op.session in db.sessions && op.w == DeleteFailed
    && exists r | r in db.index :: r.messageId == MessageId(op.session, op.turn, User) && r.body != op.content
  }

  /** That is exactly what makes a user's row stale. */
  lemma UserRowsStaleExactly(db: Db, op: Op)
    requires Sound(db) && UserRowsCurrent(db)
    ensures UserRowsCurrent(Step(db, op)) <==> !LeavesOldWords(db, op)
  {
    hide Upserted, Indexed, PersistedAssistant, ReplacedFrom, Backfilled, MessageId, Trim, Sound, UserRowsCurrent;
    if WriteOf(op) != DeleteFailed {
      StepShowsUsers(db, op);
    } else {
      match op {
        case PersistUser(session, turn, content, w) =>
          if session in db.sessions { UndeletedRowExactly(db, UserMessage(session, turn, content)); }
        case PersistAssistant(session, turn, content, finalAnswer, summary, w) =>
          var m := AssistantMessage(session, turn, content, finalAnswer, summary);
          if session in db.sessions { AssistantLeavesUserRows(db, m, w); } else { UnknownSession(db, m, w); }
        case Append(session, content, w) =>
          if AppendReply(db, session) == Done {
            var m := UserMessage(session, NextTurn(db.messages, session), content);
            UpsertOfNew(db.messages, m);
            UndeletedRowExactly(db, m);
            NoRowOfNew(db, m.id);
          }
      }
    }
  }

  lemma UndeletedRowExactly(db: Db, m: Message)
    requires Sound(db) && WellFormed(db.sessions.Keys, m) && m.role.User? && UserRowsCurrent(db)
    ensures UserRowsCurrent(db.(messages := Upserted(db.messages, m),
                                index := Indexed(db.index, RowOf(m, m.content), DeleteFailed)))
       <==> forall r | r in db.index && r.messageId == m.id :: r.body == m.content
  {
    var after := Upserted(db.messages, m);
    UpsertedMembers(db.messages, m);
    UpsertedSources(db.sessions.Keys, db.messages, m, "");
    var x :| x in after && Describes(RowOf(m, ""), x);
    hide Upserted, Sound;
  }

  lemma NoRowOfNew(db: Db, id: string)
    requires Sound(db) && !HasId(db.messages, id)
    ensures forall r | r in db.index :: r.messageId != id
  {
    forall r | r in db.index ensures r.messageId != id {
      var m :| m in db.messages && Describes(r, m);
    }
  }

  lemma StepShowsUsers(db: Db, op: Op)
    requires Sound(db) && UserRowsCurrent(db) && WriteOf(op) != DeleteFailed
    ensures UserRowsCurrent(Step(db, op))
    ensures UserRowsComplete(db) && WriteOf(op) == Written ==> UserRowsComplete(Step(db, op))
  {
    hide Upserted, Indexed, PersistedAssistant, ReplacedFrom, Backfilled, MessageId, Trim, Sound,
      UserRowsCurrent, UserRowsComplete;
    match op {
      case PersistUser(session, turn, content, w) =>
        if session in db.sessions { UpsertedUserCurrent(db, UserMessage(session, turn, content), w); }
      case PersistAssistant(session, turn, content, finalAnswer, summary, w) =>
        var m := AssistantMessage(session, turn, content, finalAnswer, summary);
        if session in db.sessions { AssistantLeavesUserRows(db, m, w); } else { UnknownSession(db, m, w); }
      case Append(session, content, w) =>
        if AppendReply(db, session) == Done {
          var m := UserMessage(session, NextTurn(db.messages, session), content);
          UpsertOfNew(db.messages, m);
          UpsertedUserCurrent(db, m, w);
        }
      case ReplaceFrom(session, turn, content) => ReplaceLeavesUserRows(db, session, turn, content);
      case Backfill => BackfillShowsUsers(db);
    }
  }

  lemma UnknownSession(db: Db, m: Message, w: IndexWrite)
    requires m.session !in db.sessions
    ensures PersistedAssistant(db, m, w) == db
  {}

  lemma UpsertOfNew(messages: seq<Message>, m: Message)
    requires !HasId(messages, m.id)
    ensures Upserted(messages, m) == messages + [m]
  {}

  /** Through every run: while no row's deletion fails, the user rows stay current; while every index
      write succeeds, they stay complete as well. */
  lemma {:induction false} RunShowsUsers(db: Db, ops: seq<Op>)
    requires Sound(db) && UserRowsCurrent(db)
    requires forall op | op in ops :: WriteOf(op) != DeleteFailed
    ensures UserRowsCurrent(Run(db, ops))
    ensures UserRowsComplete(db) && (forall op | op in ops :: WriteOf(op) == Written) ==> UserRowsComplete(Run(db, ops))
    decreases ops
  {
    if ops != [] {
      StepSound(db, ops[0]);
      StepShowsUsers(db, ops[0]);
      RunShowsUsers(Step(db, ops[0]), ops[1..]);
    }
  }

  /** Such an input. */
  lemma FailedDeletionLeavesOldWords()
    ensures exists db, op :: Sound(db) && UserRowsCurrent(db) && LeavesOldWords(db, op)
  {
    var m := UserMessage("s", 1, "old");
    var db := Db(map["s" := Session(false, 0, None)], [m], [RowOf(m, "old")], []);
    var op := PersistUser("s", 1, "new", DeleteFailed);
    assert Describes(db.index[0], m);
    assert "old"[0] != "new"[0] && db.index[0] in db.index;
    assert LeavesOldWords(db, op);
  }

  /** An assistant message's row, if there is one, carries its final answer. */
  predicate AnswerShown(db: Db, id: string) {
    forall r, m | r in db.index && m in db.messages && r.messageId == id && m.id == id ::
      m.finalAnswer == Some(r.body)
  }

  /** After a write that holds exactly when there was an answer to index and the old row could be deleted,
      or the rows already said what the message now says. */
  lemma AnswerShownExactly(db: Db, m: Message, w: IndexWrite)
    requires Sound(db) && WellFormed(db.sessions.Keys, m) && m.role.Assistant?
    ensures AnswerShown(PersistedAssistant(db, m, w), m.id) <==>
            (w != DeleteFailed && m.finalAnswer.Some? && Trim(m.finalAnswer.value) != "")
            || forall r | r in db.index && r.messageId == m.id :: m.finalAnswer == Some(r.body)
  {
    var after := PersistedAssistant(db, m, w);
    KeepMembers(db.index, NotFor(m.id));
    AnswerWritten(db, m, w);
    UpsertedSources(db.sessions.Keys, db.messages, m, "");
    var x :| x in after.messages && Describes(RowOf(m, ""), x);
    hide Trim, Keep, Upserted, Sound;
  }

  lemma AnswerWritten(db: Db, m: Message, w: IndexWrite)
    requires Sound(db) && WellFormed(db.sessions.Keys, m) && m.role.Assistant?
    ensures forall y | y in PersistedAssistant(db, m, w).messages && y.id == m.id :: y.finalAnswer == m.finalAnswer
  {
    hide Trim, Indexed;
    var after := PersistedAssistant(db, m, w).messages;
    forall y | y in after && y.id == m.id ensures y.finalAnswer == m.finalAnswer {
      var i :| 0 <= i < |after| && after[i] == y;
      if i < |db.messages| { assert db.messages[i] in db.messages; }
    }
  }

  /** Such an input: an answered message saved again without its answer, every write working. */
  lemma UnansweredSaveLeavesOldAnswer()
    ensures exists db: Db, m: Message ::
              && Sound(db) && m.role.Assistant? && WellFormed(db.sessions.Keys, m) && AnswerShown(db, m.id)
              && !AnswerShown(PersistedAssistant(db, m, Written), m.id)
  {
    var before := AssistantMessage("s", 1, "c", Some("answer"), None);
    var db := Db(map["s" := Session(false, 0, None)], [before], [RowOf(before, "answer")], []);
    var m := AssistantMessage("s", 1, "c", None, None);
    assert Describes(db.index[0], before) && db.index[0] in db.index;
    hide MessageId, PersistedAssistant;
    assert Sound(db) && AnswerShown(db, m.id);
    AnswerShownExactly(db, m, Written);
  }
}
