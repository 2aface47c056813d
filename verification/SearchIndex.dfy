/** When the full-text table holds the right rows: the backfill's shortcut, its rebuild, and what
    deleting a session does (core/src/db.rs). */
module SearchIndex {
  import opened Rows
  import opened Text
  import opened Transcript
  import opened MessageWrites
  import opened TranscriptEdits

  /** Every message the search should find has a row. */
  predicate Covered(db: Db) {
    forall m | m in db.messages && Indexable()(m) :: HasRow(db.index, m.id)
  }

  /** The row's message has something to show. */
  predicate NamesIndexable(messages: seq<Message>, r: IndexRow) {
    exists m | m in messages :: m.id == r.messageId && Indexable()(m)
  }

  function Useful(messages: seq<Message>): IndexRow -> bool {
    (r: IndexRow) => NamesIndexable(messages, r)
  }

  function Stray(messages: seq<Message>): IndexRow -> bool {
    (r: IndexRow) => !NamesIndexable(messages, r)
  }

  // ---------- counting ----------

  function RowKeys(index: seq<IndexRow>): set<string> {
    set r | r in index :: r.messageId
  }

  function MessageKeys(messages: seq<Message>): set<string> {
    set m | m in messages :: m.id
  }

  lemma {:induction false} RowsCount(index: seq<IndexRow>)
    requires DistinctRows(index)
    ensures |RowKeys(index)| == |index|
  {
    if index != [] {
      RowsCount(index[1..]);
      assert forall r | r in index[1..] :: r.messageId != index[0].messageId;
      assert RowKeys(index) == {index[0].messageId} + RowKeys(index[1..]);
    }
  }

  lemma {:induction false} MessagesCount(messages: seq<Message>)
    requires DistinctIds(messages)
    ensures |MessageKeys(messages)| == |messages|
  {
    if messages != [] {
      MessagesCount(messages[1..]);
      assert forall m | m in messages[1..] :: m.id != messages[0].id;
      assert MessageKeys(messages) == {messages[0].id} + MessageKeys(messages[1..]);
    }
  }

  /** Pigeonhole: the useful rows are as many as the indexable messages exactly when they cover them. */
  lemma UsefulRowsCover(db: Db)
    requires Keyed(db)
    ensures |Keep(db.index, Useful(db.messages))| <= |Keep(db.messages, Indexable())|
    ensures Covered(db) <==> |Keep(db.index, Useful(db.messages))| == |Keep(db.messages, Indexable())|
  {
    var rows, messages := Keep(db.index, Useful(db.messages)), Keep(db.messages, Indexable());
    UsefulRowsDistinct(db);
    KeepMembers(db.index, Useful(db.messages));
    KeepMembers(db.messages, Indexable());
    KeysAgree(db, rows, messages);
  }

  lemma UsefulRowsDistinct(db: Db)
    requires Keyed(db)
    ensures |RowKeys(Keep(db.index, Useful(db.messages)))| == |Keep(db.index, Useful(db.messages))|
    ensures |MessageKeys(Keep(db.messages, Indexable()))| == |Keep(db.messages, Indexable())|
  {
    KeptRowsDistinct(db.index, Useful(db.messages));
    KeptMessagesSound(db.sessions.Keys, db.messages, Indexable());
    RowsCount(Keep(db.index, Useful(db.messages)));
    MessagesCount(Keep(db.messages, Indexable()));
  }

  lemma KeysAgree(db: Db, rows: seq<IndexRow>, messages: seq<Message>)
    requires forall r :: r in rows <==> r in db.index && NamesIndexable(db.messages, r)
    requires forall m :: m in messages <==> m in db.messages && Indexable()(m)
    ensures |RowKeys(rows)| <= |MessageKeys(messages)|
    ensures Covered(db) <==> |RowKeys(rows)| == |MessageKeys(messages)|
  {
    CoveredByKeys(db, rows, messages);
    hide Indexable, Covered;
    assert RowKeys(rows) <= MessageKeys(messages);
    SubsetSize(RowKeys(rows), MessageKeys(messages));
    if MessageKeys(messages) <= RowKeys(rows) { assert RowKeys(rows) == MessageKeys(messages); }
  }

  lemma CoveredByKeys(db: Db, rows: seq<IndexRow>, messages: seq<Message>)
    requires forall r :: r in rows <==> r in db.index && NamesIndexable(db.messages, r)
    requires forall m :: m in messages <==> m in db.messages && Indexable()(m)
    ensures Covered(db) <==> MessageKeys(messages) <= RowKeys(rows)
  {
    hide Indexable;
    if Covered(db) {
      forall id | id in MessageKeys(messages) ensures id in RowKeys(rows) {
        var m :| m in messages && m.id == id;
        var r :| r in db.index && r.messageId == id;
        assert NamesIndexable(db.messages, r);
      }
    }
    if MessageKeys(messages) <= RowKeys(rows) {
      forall m | m in db.messages && Indexable()(m) ensures HasRow(db.index, m.id) {
        assert m.id in MessageKeys(messages);
        var r :| r in rows && r.messageId == m.id;
      }
    }
  }

  // ---------- the shortcut ----------

  /** Skipping is right exactly when the rows that show nothing, of blank messages or of deleted ones, do
      not make up the count. */
  lemma SkipIsRightExactly(db: Db)
    requires Keyed(db)
    ensures Covered(db) <==> |db.index| - |Keep(db.index, Stray(db.messages))| >= |Keep(db.messages, Indexable())|
  {
    UsefulRowsCover(db);
    KeptAndDropped(db.index, Useful(db.messages), Stray(db.messages));
  }

  predicate NoStrays(db: Db) {
    forall r | r in db.index :: NamesIndexable(db.messages, r)
  }

  lemma NoStraysCount(db: Db)
    requires NoStrays(db)
    ensures Keep(db.index, Stray(db.messages)) == []
  {
    var strays := Keep(db.index, Stray(db.messages));
    KeepMembers(db.index, Stray(db.messages));
    if strays != [] { HasMember(strays); }
  }

  lemma HasMember(rows: seq<IndexRow>)
    requires rows != []
    ensures exists r :: r in rows
  {
    assert rows[0] in rows;
  }

  /** With no stray rows the backfill is skipped exactly when nothing is missing, and afterwards nothing
      ever is. */
  lemma BackfillCovers(db: Db)
    requires Keyed(db) && NoStrays(db)
    ensures BackfillSkips(db) <==> Covered(db)
    ensures Covered(Backfilled(db))
  {
    SkipIsRightExactly(db);
    NoStraysCount(db);
    if !BackfillSkips(db) { RebuildIsExact(db); }
  }

  /** A rebuild leaves one row for each indexable message, showing what the message says, and no other
      row; the next backfill has nothing to do. */
  lemma RebuildIsExact(db: Db)
    requires Keyed(db) && !BackfillSkips(db)
    ensures var after := Backfilled(db);
            && Sound(after)
            && (forall r :: r in after.index <==>
                  exists m | m in db.messages && Indexable()(m) :: r == RowOf(m, Shown(m)))
            && Covered(after) && NoStrays(after) && BackfillSkips(after)
  {
    var after := Backfilled(db);
    BackfillStepKeyed(db);
    RebuiltRows(db.messages);
    forall m | m in db.messages && Indexable()(m) ensures HasRow(after.index, m.id) {
      assert RowOf(m, Shown(m)) in after.index;
    }
  }

  lemma RebuiltRows(messages: seq<Message>)
    ensures forall r :: r in RowsOf(Keep(messages, Indexable())) <==>
              exists m | m in messages && Indexable()(m) :: r == RowOf(m, Shown(m))
  {
    var kept := Keep(messages, Indexable());
    var rows := RowsOf(kept);
    KeepMembers(messages, Indexable());
    hide Keep, Indexable, Shown;
    forall r | r in rows ensures exists m | m in messages && Indexable()(m) :: r == RowOf(m, Shown(m)) {
      var i :| 0 <= i < |rows| && rows[i] == r;
      assert kept[i] in kept;
    }
    forall m | m in messages && Indexable()(m) ensures RowOf(m, Shown(m)) in rows {
      assert m in kept;
      var i :| 0 <= i < |kept| && kept[i] == m;
      assert rows[i] == RowOf(m, Shown(m));
    }
  }

  /** The operation writes a message that the search can show. */
  predicate Speaks(op: Op) {
    match op
    case PersistUser(_, _, content, _) => !SqlBlank(content)
    case PersistAssistant(_, _, content, finalAnswer, _, _) =>
      !SqlBlank(if finalAnswer.Some? then finalAnswer.value else content)
    case Append(_, content, _) => !SqlBlank(content)
    case ReplaceFrom(_, _, content) => !SqlBlank(content)
    case Backfill => true
  }

  lemma UpsertLeavesNoStrays(db: Db, m: Message, body: string, w: IndexWrite)
    requires Sound(db) && NoStrays(db) && WellFormed(db.sessions.Keys, m) && Indexable()(m)
    ensures NoStrays(db.(messages := Upserted(db.messages, m)))
    ensures NoStrays(db.(messages := Upserted(db.messages, m), index := Indexed(db.index, RowOf(m, body), w)))
  {
    var after := Upserted(db.messages, m);
    KeepMembers(db.index, NotFor(m.id));
    forall r | NamesIndexable(db.messages, r) || r.messageId == m.id ensures NamesIndexable(after, r) {
      if r.messageId == m.id {
        UpsertedIsShown(db.sessions.Keys, db.messages, m);
      } else {
        var x :| x in db.messages && x.id == r.messageId && Indexable()(x);
        var i :| 0 <= i < |db.messages| && db.messages[i] == x;
        assert after[i] == x && after[i] in after;
      }
    }
  }

  lemma UpsertedIsShown(sessions: set<string>, messages: seq<Message>, m: Message)
    requires MessagesSound(sessions, messages) && WellFormed(sessions, m) && Indexable()(m)
    ensures exists x | x in Upserted(messages, m) :: x.id == m.id && Indexable()(x)
  {
    var after := Upserted(messages, m);
    if HasId(messages, m.id) {
      var y :| y in messages && y.id == m.id;
      IdsDistinguish(y.session, y.turn, y.role, m.session, m.turn, m.role);
      var i :| 0 <= i < |messages| && messages[i] == y;
      assert after[i] in after && after[i].id == m.id && Shown(after[i]) == Shown(m);
    } else {
      assert m in after;
    }
  }

  lemma ReplaceLeavesNoStrays(db: Db, session: string, turn: nat, content: string)
    requires Sound(db) && NoStrays(db) && !SqlBlank(content)
    ensures NoStrays(ReplacedFrom(db, session, turn, content))
  {
    if ReplaceReply(db, session, turn) == Done {
      var after := ReplacedFrom(db, session, turn, content);
      var m := UserMessage(session, turn, content);
      forall r | r in after.index ensures NamesIndexable(after.messages, r) {
        if r == RowOf(m, content) {
          assert m in after.messages && Indexable()(m);
        } else {
          KeepMember(db.index, NotAmong(IdsFrom(db.messages, session, turn)), r);
          var x :| x in db.messages && x.id == r.messageId && Indexable()(x);
          KeepMember(db.messages, Survives(session, turn), x);
          assert x in after.messages;
        }
      }
    }
  }

  lemma StepLeavesNoStrays(db: Db, op: Op)
    requires Sound(db) && NoStrays(db) && Speaks(op)
    ensures NoStrays(Step(db, op))
  {
    hide Upserted, Indexed, ReplacedFrom, Backfilled, MessageId, Trim, Sound, NoStrays;
    match op {
      case PersistUser(session, turn, content, w) =>
        if session in db.sessions { UpsertLeavesNoStrays(db, UserMessage(session, turn, content), content, w); }
      case PersistAssistant(session, turn, content, finalAnswer, summary, w) =>
        var m := AssistantMessage(session, turn, content, finalAnswer, summary);
        if session in db.sessions {
          UpsertLeavesNoStrays(db, m, if finalAnswer.Some? then finalAnswer.value else "", w);
        }
      case Append(session, content, w) =>
        if AppendReply(db, session) == Done {
          var m := UserMessage(session, NextTurn(db.messages, session), content);
          UpsertOfNew(db.messages, m);
          UpsertLeavesNoStrays(db, m, content, w);
        }
      case ReplaceFrom(session, turn, content) => ReplaceLeavesNoStrays(db, session, turn, content);
      case Backfill => BackfillLeavesNoStrays(db);
    }
  }

  lemma BackfillLeavesNoStrays(db: Db)
    requires Sound(db) && NoStrays(db)
    ensures NoStrays(Backfilled(db))
  {
    if !BackfillSkips(db) { RebuildIsExact(db); }
  }

  /** Whatever index writes fail on the way, a run of messages with something to show ends, after a
      backfill, with every message in the index. */
  lemma {:induction false} RunThenBackfillCovers(db: Db, ops: seq<Op>)
    requires Sound(db) && NoStrays(db) && forall op | op in ops :: Speaks(op)
    ensures BackfillSkips(Run(db, ops)) <==> Covered(Run(db, ops))
    ensures Covered(Backfilled(Run(db, ops)))
    decreases ops
  {
    if ops == [] {
      BackfillCovers(db);
    } else {
      StepSound(db, ops[0]);
      StepLeavesNoStrays(db, ops[0]);
      RunThenBackfillCovers(Step(db, ops[0]), ops[1..]);
    }
  }

  /** Without that, the shortcut can miss a message: a blank message's row stands in for the row that
      another message lost. */
  lemma BlankRowHidesMissingOne()
    ensures var db := Db(map["s" := Session(false, 0, None)], [], [], []);
            var after := Run(db, [PersistUser("s", 1, " ", Written), PersistUser("s", 2, "hi", InsertFailed)]);
            Sound(after) && BackfillSkips(after) && !Covered(after)
  {
    var db := Db(map["s" := Session(false, 0, None)], [], [], []);
    var first, second := PersistUser("s", 1, " ", Written), PersistUser("s", 2, "hi", InsertFailed);
    assert [first, second][1..] == [second];
    assert Run(Step(db, first), [second]) == Run(Step(Step(db, first), second), []);
    RunSound(db, [first, second]);
    var m, n := UserMessage("s", 1, " "), UserMessage("s", 2, "hi");
    if m.id == n.id { IdsDistinguish("s", 1, User, "s", 2, User); }
    var one := Step(db, first);
    assert one == db.(messages := [m], index := [RowOf(m, " ")]);
    var two := Step(one, second);
    KeepOf(RowOf(m, " "), [], NotFor(n.id));
    assert two == one.(messages := [m, n]);
    assert !SqlBlank("hi") by { assert "hi"[0] == 'h'; }
    KeepOf(m, [n], Indexable());
    KeepOf(n, [], Indexable());
    hide Step, Keep, MessageId;
    assert [m] + [n] == [m, n] && [n] + [] == [n];
    assert n in two.messages && Indexable()(n) && !HasRow(two.index, n.id);
  }

  // ---------- deleting a session ----------

  /** Its transcript and tool events are gone, and no others. */
  lemma DeletionCascades(db: Db, session: string, other: string, e: ToolEvent)
    requires Keyed(db) && session in db.sessions
    ensures var after := Deleted(db, session);
            && after.sessions.Keys == db.sessions.Keys - {session}
            && FullTranscript(after.messages, other) ==
               (if other == session then [] else FullTranscript(db.messages, other))
            && (e in after.events <==> e in db.events && e.session != session)
  {
    var after := Deleted(db, session);
    KeptMessagesSound(db.sessions.Keys, db.messages, ElsewhereThan(session));
    KeepMembers(db.messages, ElsewhereThan(session));
    KeepMember(db.events, EventElsewhere(session), e);
    TranscriptMembers(db.sessions.Keys, db.messages, other);
    hide FullTranscript, Keep;
    var list := if other == session then [] else FullTranscript(db.messages, other);
    TranscriptIs(db.sessions.Keys, after.messages, other, list);
  }

  /** Deleting a session keeps the index in agreement exactly when the session had no rows. */
  lemma DeletionKeepsAgreementExactly(db: Db, session: string)
    requires Sound(db) && session in db.sessions
    ensures Sound(Deleted(db, session)) <==> forall r | r in db.index :: r.session != session
  {
    var after := Deleted(db, session);
    var messages := after.messages;
    KeptMessagesSound(db.sessions.Keys, db.messages, ElsewhereThan(session));
    KeepMembers(db.messages, ElsewhereThan(session));
    assert MessagesSound(after.sessions.Keys, messages);
    forall r | r in db.index ensures Sourced(messages, r) <==> r.session != session {
      var m :| m in db.messages && Describes(r, m);
      if r.session != session { assert m in messages; }
    }
  }

  /** So after any run of writes and deletions a skip is right exactly as above. */
  lemma AnyRunSkipsExactly(db: Db, ops: seq<AnyOp>)
    requires Keyed(db)
    ensures var after := AnyRun(db, ops);
            Covered(after) <==>
            |after.index| - |Keep(after.index, Stray(after.messages))| >= |Keep(after.messages, Indexable())|
  {
    AnyRunKeyed(db, ops);
    SkipIsRightExactly(AnyRun(db, ops));
  }

  /** A deleted session's row hides the missing row of another session's message. */
  lemma OrphanRowHidesMissingOne()
    ensures var db := Db(map["a" := Session(false, 0, None), "b" := Session(false, 0, None)], [], [], []);
            var after := AnyRun(db, [Write(PersistUser("a", 1, "x", Written)),
                                     Write(PersistUser("b", 1, "hi", InsertFailed)), DeleteSession("a")]);
            BackfillSkips(after) && !Covered(after)
  {
    var db := Db(map["a" := Session(false, 0, None), "b" := Session(false, 0, None)], [], [], []);
    var first, second := PersistUser("a", 1, "x", Written), PersistUser("b", 1, "hi", InsertFailed);
    var ops := [Write(first), Write(second), DeleteSession("a")];
    var m, n := UserMessage("a", 1, "x"), UserMessage("b", 1, "hi");
    DifferentSessions(m, n);
    var one := Step(db, first);
    assert one == db.(messages := [m], index := [RowOf(m, "x")]);
    var two := Step(one, second);
    KeepOf(RowOf(m, "x"), [], NotFor(n.id));
    assert two == one.(messages := [m, n]);
    var three := Deleted(two, "a");
    KeepOf(m, [n], ElsewhereThan("a"));
    KeepOf(n, [], ElsewhereThan("a"));
    assert three.messages == [n] && three.index == [RowOf(m, "x")];
    hide Step, Deleted, Keep, BackfillSkips, Covered;
    assert ops[1..] == [Write(second), DeleteSession("a")] && ops[1..][1..] == [DeleteSession("a")];
    assert AnyRun(db, ops) == AnyRun(one, ops[1..]) == AnyRun(two, ops[1..][1..]);
    assert AnyRun(two, [DeleteSession("a")]) == AnyRun(three, []);
    OneRowForAnother(three, m, n);
  }

  lemma DifferentSessions(m: Message, n: Message)
    requires m == UserMessage("a", 1, "x") && n == UserMessage("b", 1, "hi")
    ensures m.id != n.id
  {
    assert "a"[0] != "b"[0];
    if m.id == n.id { IdsDistinguish("a", 1, User, "b", 1, User); }
  }

  lemma OneRowForAnother(db: Db, m: Message, n: Message)
    requires db.messages == [n] && db.index == [RowOf(m, "x")] && m.id != n.id && Shown(n) == "hi"
    ensures BackfillSkips(db) && !Covered(db)
  {
    assert !SqlBlank("hi") by { assert "hi"[0] == 'h'; }
    KeepOf(n, [], Indexable());
    assert n in db.messages && Indexable()(n) && !HasRow(db.index, n.id);
  }
}
