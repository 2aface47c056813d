/** Writing messages and their search rows (core/src/db.rs), and what every run of the writes keeps. */
module MessageWrites {
  import opened Rows
  import opened Text
  import opened Transcript

  /** A row of the full-text table. The table stands alone: nothing but these writes ties it to the
      messages. */
  datatype IndexRow = IndexRow(messageId: string, session: string, role: Role, turn: nat, body: string)

  datatype Session = Session(archived: bool, turnCount: nat, summary: Option<string>)
  datatype ToolEvent = ToolEvent(id: string, session: string, turn: nat)

  datatype Db = Db(sessions: map<string, Session>, messages: seq<Message>, index: seq<IndexRow>,
                   events: seq<ToolEvent>)

  /** How indexing a message went: its errors are logged and swallowed, and its two statements fail
      separately. */
  datatype IndexWrite = Written | DeleteFailed | InsertFailed

  datatype Reply = Done | NotFound | InvalidArgs | Failed

  // ---------- the invariant ----------

  predicate DistinctIds(messages: seq<Message>) {
    forall i, j | 0 <= i < j < |messages| :: messages[i].id != messages[j].id
  }

  predicate DistinctRows(index: seq<IndexRow>) {
    forall i, j | 0 <= i < j < |index| :: index[i].messageId != index[j].messageId
  }

  predicate WellFormed(sessions: set<string>, m: Message) {
    m.session in sessions && m.id == MessageId(m.session, m.turn, m.role) && m.sequence == SequenceOf(m.role)
  }

  predicate Describes(r: IndexRow, m: Message) {
    r.messageId == m.id && r.session == m.session && r.role == m.role && r.turn == m.turn
  }

  predicate Sourced(messages: seq<Message>, r: IndexRow) {
    exists m | m in messages :: Describes(r, m)
  }

  predicate MessagesSound(sessions: set<string>, messages: seq<Message>) {
    DistinctIds(messages) && forall m | m in messages :: WellFormed(sessions, m)
  }

  /** At most one row per message, and no row without one. */
  predicate IndexSound(messages: seq<Message>, index: seq<IndexRow>) {
    DistinctRows(index) && forall r | r in index :: Sourced(messages, r)
  }

  predicate Sound(db: Db) {
    MessagesSound(db.sessions.Keys, db.messages) && IndexSound(db.messages, db.index)
  }

  /** What is left of it once sessions have been deleted: rows may outlive their messages. */
  predicate Keyed(db: Db) {
    MessagesSound(db.sessions.Keys, db.messages) && DistinctRows(db.index)
  }

  // ---------- single statements ----------

  predicate HasId(messages: seq<Message>, id: string) {
    exists m | m in messages :: m.id == id
  }

  /** The columns an upsert refreshes. */
  function Refreshed(stored: Message, m: Message): Message {
    if m.role.User? then stored.(content := m.content)
    else stored.(content := m.content, finalAnswer := m.finalAnswer, summary := m.summary)
  }

  function Upserted(messages: seq<Message>, m: Message): seq<Message> {
    if HasId(messages, m.id) then
      seq(|messages|, i requires 0 <= i < |messages| =>
        if messages[i].id == m.id then Refreshed(messages[i], m) else messages[i])
    else messages + [m]
  }

  function NotFor(id: string): IndexRow -> bool {
    (r: IndexRow) => r.messageId != id
  }

  function Indexed(index: seq<IndexRow>, row: IndexRow, w: IndexWrite): seq<IndexRow> {
    match w
    case Written => Keep(index, NotFor(row.messageId)) + [row]
    case DeleteFailed => index
    case InsertFailed => Keep(index, NotFor(row.messageId))
  }

  function UserMessage(session: string, turn: nat, content: string): Message {
    Message(MessageId(session, turn, User), session, turn, SequenceOf(User), User, content, None, None)
  }

  function AssistantMessage(session: string, turn: nat, content: string, finalAnswer: Option<string>,
                            summary: Option<string>): Message {
    Message(MessageId(session, turn, Assistant), session, turn, SequenceOf(Assistant), Assistant, content,
            finalAnswer, summary)
  }

  function RowOf(m: Message, body: string): IndexRow {
    IndexRow(m.id, m.session, m.role, m.turn, body)
  }

  // ---------- the operations ----------

  /** `persist_gui_user_message`: the search row is written whatever the content is. */
  function PersistedUser(db: Db, session: string, turn: nat, content: string, w: IndexWrite): Db {
    var m := UserMessage(session, turn, content);
    if session !in db.sessions then db
    else db.(messages := Upserted(db.messages, m), index := Indexed(db.index, RowOf(m, content), w))
  }

  /** `persist_gui_assistant_message`: only a final answer with something in it is indexed. */
  function PersistedAssistant(db: Db, m: Message, w: IndexWrite): Db {
    if m.session !in db.sessions then db
    else db.(messages := Upserted(db.messages, m),
             index := if m.finalAnswer.Some? && Trim(m.finalAnswer.value) != ""
                      then Indexed(db.index, RowOf(m, m.finalAnswer.value), w) else db.index)
  }

  /** One past the session's greatest turn, or 0. */
  function NextTurn(messages: seq<Message>, session: string): (next: nat)
    ensures forall m | m in messages && m.session == session :: m.turn < next
    ensures next == 0 || exists m | m in messages :: m.session == session && m.turn + 1 == next
  {
    if messages == [] then 0
    else
      var rest := NextTurn(messages[1..], session);
      if messages[0].session == session && messages[0].turn >= rest then messages[0].turn + 1 else rest
  }

  /** `insert_user_message_inner`: a plain INSERT, which a taken id would abort. */
  function AppendReply(db: Db, session: string): Reply {
    if session !in db.sessions then NotFound
    else if db.sessions[session].archived then InvalidArgs
    else if HasId(db.messages, MessageId(session, NextTurn(db.messages, session), User)) then Failed
    else Done
  }

  function Appended(db: Db, session: string, content: string, w: IndexWrite): Db {
    var m := UserMessage(session, NextTurn(db.messages, session), content);
    if AppendReply(db, session) != Done then db
    else db.(messages := db.messages + [m], index := Indexed(db.index, RowOf(m, content), w))
  }

  predicate HasUserAt(messages: seq<Message>, session: string, turn: nat) {
    exists m | m in messages :: m.session == session && m.turn == turn && m.role.User?
  }

  function Survives(session: string, turn: nat): Message -> bool {
    (m: Message) => !(m.session == session && m.turn >= turn)
  }

  function EventSurvives(session: string, turn: nat): ToolEvent -> bool {
    (e: ToolEvent) => !(e.session == session && e.turn >= turn)
  }

  function NotAmong(ids: set<string>): IndexRow -> bool {
    (r: IndexRow) => r.messageId !in ids
  }

  function IdsFrom(messages: seq<Message>, session: string, turn: nat): set<string> {
    set m | m in messages && m.session == session && m.turn >= turn :: m.id
  }

  /** SQL's TRIM takes spaces only. */
  predicate SqlBlank(s: string) {
    forall i | 0 <= i < |s| :: s[i] == ' '
  }

  function Summarised(session: string, turn: nat): Message -> bool {
    (m: Message) => m.session == session && m.role.Assistant? && m.turn < turn
                    && m.summary.Some? && !SqlBlank(m.summary.value)
  }

  /** The newest summary from before the turn. */
  function PreviousSummary(messages: seq<Message>, session: string, turn: nat): Option<string> {
    var rows := OrderBy(Keep(messages, Summarised(session, turn)), true);
    if rows == [] then None else rows[0].summary
  }

  /** `replace_gui_user_message_from_turn`, one transaction. */
  function ReplaceReply(db: Db, session: string, turn: nat): Reply {
    if turn == 0 then InvalidArgs
    else if !HasUserAt(db.messages, session, turn) then NotFound
    else if HasId(Keep(db.messages, Survives(session, turn)), MessageId(session, turn, User)) then Failed
    else Done
  }

  function ReplacedFrom(db: Db, session: string, turn: nat, content: string): Db {
    var m := UserMessage(session, turn, content);
    if ReplaceReply(db, session, turn) != Done then db
    else Db(
      if session in db.sessions then
        db.sessions[session := db.sessions[session].(turnCount := turn - 1,
                                                     summary := PreviousSummary(db.messages, session, turn))]
      else db.sessions,
      Keep(db.messages, Survives(session, turn)) + [m],
      Keep(db.index, NotAmong(IdsFrom(db.messages, session, turn))) + [RowOf(m, content)],
      Keep(db.events, EventSurvives(session, turn)))
  }

  /** What the search shows of a message. */
  function Shown(m: Message): string {
    if m.role.User? then m.content else if m.finalAnswer.Some? then m.finalAnswer.value else m.content
  }

  function Indexable(): Message -> bool {
    (m: Message) => !SqlBlank(Shown(m))
  }

  function RowsOf(messages: seq<Message>): seq<IndexRow> {
    seq(|messages|, i requires 0 <= i < |messages| => RowOf(messages[i], Shown(messages[i])))
  }

  /** `backfill_fts_if_empty`: rebuild when there are fewer rows than indexable messages. */
  predicate BackfillSkips(db: Db) {
    |db.index| >= |Keep(db.messages, Indexable())|
  }

  function Backfilled(db: Db): Db {
    if BackfillSkips(db) then db else db.(index := RowsOf(Keep(db.messages, Indexable())))
  }

  datatype Op =
    | PersistUser(session: string, turn: nat, content: string, w: IndexWrite)
    | PersistAssistant(session: string, turn: nat, content: string, finalAnswer: Option<string>,
                       summary: Option<string>, w: IndexWrite)
    | Append(session: string, content: string, w: IndexWrite)
    | ReplaceFrom(session: string, turn: nat, content: string)
    | Backfill

  function Step(db: Db, op: Op): Db {
    match op
    case PersistUser(session, turn, content, w) => PersistedUser(db, session, turn, content, w)
    case PersistAssistant(session, turn, content, finalAnswer, summary, w) =>
      PersistedAssistant(db, AssistantMessage(session, turn, content, finalAnswer, summary), w)
    case Append(session, content, w) => Appended(db, session, content, w)
    case ReplaceFrom(session, turn, content) => ReplacedFrom(db, session, turn, content)
    case Backfill => Backfilled(db)
  }

  function Run(db: Db, ops: seq<Op>): Db
    decreases ops
  {
    if ops == [] then db else Run(Step(db, ops[0]), ops[1..])
  }

  // ---------- the invariant holds through every run ----------

  lemma KeptMessagesSound(sessions: set<string>, messages: seq<Message>, kept: Message -> bool)
    requires MessagesSound(sessions, messages)
    ensures MessagesSound(sessions, Keep(messages, kept))
  {
    hide MessageId, SequenceOf;
    var differ := (a: Message, b: Message) => a.id != b.id;
    assert Pairwise(messages, differ);
    KeepPairwise(messages, kept, differ);
    KeepMembers(messages, kept);
  }

  lemma KeptRowsDistinct(index: seq<IndexRow>, kept: IndexRow -> bool)
    requires DistinctRows(index)
    ensures DistinctRows(Keep(index, kept))
  {
    var differ := (a: IndexRow, b: IndexRow) => a.messageId != b.messageId;
    assert Pairwise(index, differ);
    KeepPairwise(index, kept, differ);
  }

  lemma KeptRowsSound(messages: seq<Message>, index: seq<IndexRow>, kept: IndexRow -> bool)
    requires IndexSound(messages, index)
    ensures IndexSound(messages, Keep(index, kept))
  {
    hide Sourced;
    KeptRowsDistinct(index, kept);
    KeepMembers(index, kept);
  }

  /** A row for a message that the rest has none for. */
  lemma RowAddedDistinct(rest: seq<IndexRow>, row: IndexRow)
    requires DistinctRows(rest) && forall r | r in rest :: r.messageId != row.messageId
    ensures DistinctRows(rest + [row])
  {
    forall i | 0 <= i < |rest| ensures rest[i].messageId != row.messageId { assert rest[i] in rest; }
  }

  lemma IndexedDistinct(index: seq<IndexRow>, row: IndexRow, w: IndexWrite)
    requires DistinctRows(index)
    ensures DistinctRows(Indexed(index, row, w))
  {
    KeptRowsDistinct(index, NotFor(row.messageId));
    KeepMembers(index, NotFor(row.messageId));
    hide Keep, DistinctRows;
    RowAddedDistinct(Keep(index, NotFor(row.messageId)), row);
  }

  lemma IndexedSound(messages: seq<Message>, index: seq<IndexRow>, row: IndexRow, w: IndexWrite)
    requires IndexSound(messages, index) && Sourced(messages, row)
    ensures IndexSound(messages, Indexed(index, row, w))
  {
    IndexedDistinct(index, row, w);
    KeepMembers(index, NotFor(row.messageId));
    hide Sourced, Keep, DistinctRows;
  }

  lemma UpsertedSound(sessions: set<string>, messages: seq<Message>, m: Message)
    requires MessagesSound(sessions, messages) && WellFormed(sessions, m)
    ensures MessagesSound(sessions, Upserted(messages, m))
  {
    hide MessageId, SequenceOf;
    var after := Upserted(messages, m);
    forall x | x in after ensures WellFormed(sessions, x) {
      if x != m {
        var i :| 0 <= i < |after| && after[i] == x;
        assert messages[i] in messages;
      }
    }
    if !HasId(messages, m.id) { assert forall i | 0 <= i < |messages| :: messages[i] in messages; }
  }

  /** An upsert keeps every row's source, and leaves one for the message's own row. */
  lemma UpsertedSources(sessions: set<string>, messages: seq<Message>, m: Message, body: string)
    requires MessagesSound(sessions, messages) && WellFormed(sessions, m)
    ensures forall r | Sourced(messages, r) :: Sourced(Upserted(messages, m), r)
    ensures Sourced(Upserted(messages, m), RowOf(m, body))
  {
    var after := Upserted(messages, m);
    forall r | Sourced(messages, r) ensures Sourced(after, r) {
      var x :| x in messages && Describes(r, x);
      var i :| 0 <= i < |messages| && messages[i] == x;
      assert Describes(r, after[i]) && after[i] in after;
    }
    if HasId(messages, m.id) {
      var x :| x in messages && x.id == m.id;
      IdsDistinguish(x.session, x.turn, x.role, m.session, m.turn, m.role);
      assert Describes(RowOf(m, body), x);
    } else {
      assert m in after && Describes(RowOf(m, body), m);
    }
  }

  lemma UpsertStepSound(db: Db, m: Message, body: string, w: IndexWrite)
    requires Sound(db) && WellFormed(db.sessions.Keys, m)
    ensures Sound(db.(messages := Upserted(db.messages, m)))
    ensures Sound(db.(messages := Upserted(db.messages, m), index := Indexed(db.index, RowOf(m, body), w)))
  {
    hide Upserted, Indexed, Sourced, WellFormed;
    UpsertedSound(db.sessions.Keys, db.messages, m);
    UpsertedSources(db.sessions.Keys, db.messages, m, body);
    IndexedSound(Upserted(db.messages, m), db.index, RowOf(m, body), w);
  }

  /** An appended turn is fresh: it is past every turn of the session, so its INSERT cannot fail on a
      taken id. */
  lemma AppendIsFresh(db: Db, session: string)
    requires Keyed(db) && session in db.sessions && !db.sessions[session].archived
    ensures AppendReply(db, session) == Done
  {
    var turn := NextTurn(db.messages, session);
    forall m | m in db.messages ensures m.id != MessageId(session, turn, User) {
      if m.id == MessageId(session, turn, User) {
        IdsDistinguish(m.session, m.turn, m.role, session, turn, User);
      }
    }
  }

  lemma AppendStepSound(db: Db, session: string, content: string, w: IndexWrite)
    requires Sound(db)
    ensures Sound(Appended(db, session, content, w))
  {
    if AppendReply(db, session) == Done {
      var m := UserMessage(session, NextTurn(db.messages, session), content);
      assert Upserted(db.messages, m) == db.messages + [m];
      UpsertStepSound(db, m, content, w);
    }
  }

  /** The replacement's INSERT cannot fail on a taken id either. */
  lemma ReplaceFindsRoom(db: Db, session: string, turn: nat)
    requires Keyed(db)
    ensures ReplaceReply(db, session, turn) != Failed
  {
    var rest := Keep(db.messages, Survives(session, turn));
    KeepMembers(db.messages, Survives(session, turn));
    forall m | m in rest ensures m.id != MessageId(session, turn, User) {
      if m.id == MessageId(session, turn, User) {
        IdsDistinguish(m.session, m.turn, m.role, session, turn, User);
      }
    }
  }

  /** The surviving rows still have their messages. */
  lemma ReplaceKeepsSources(db: Db, session: string, turn: nat)
    requires Sound(db)
    ensures IndexSound(Keep(db.messages, Survives(session, turn)),
                       Keep(db.index, NotAmong(IdsFrom(db.messages, session, turn))))
  {
    var ids := IdsFrom(db.messages, session, turn);
    var messages, index := Keep(db.messages, Survives(session, turn)), Keep(db.index, NotAmong(ids));
    KeptRowsSound(db.messages, db.index, NotAmong(ids));
    KeepMembers(db.index, NotAmong(ids));
    forall r | r in index ensures Sourced(messages, r) {
      var m :| m in db.messages && Describes(r, m);
      KeepMember(db.messages, Survives(session, turn), m);
      assert m in messages;
    }
  }

  lemma ReplaceStepSound(db: Db, session: string, turn: nat, content: string)
    requires Sound(db)
    ensures Sound(ReplacedFrom(db, session, turn, content))
  {
    if ReplaceReply(db, session, turn) == Done {
      hide PreviousSummary;
      var m := UserMessage(session, turn, content);
      var messages := Keep(db.messages, Survives(session, turn));
      var index := Keep(db.index, NotAmong(IdsFrom(db.messages, session, turn)));
      var x :| x in db.messages && x.session == session && x.turn == turn && x.role.User?;
      assert session in db.sessions;
      KeptMessagesSound(db.sessions.Keys, db.messages, Survives(session, turn));
      ReplaceKeepsSources(db, session, turn);
      assert Upserted(messages, m) == messages + [m];
      var cut := db.(messages := messages, index := index);
      UpsertStepSound(cut, m, content, Written);
      NoRowFor(messages, index, m.id);
      assert ReplacedFrom(db, session, turn, content).sessions.Keys == db.sessions.Keys;
    }
  }

  /** Deleting the row of a message that is not there deletes nothing. */
  lemma NoRowFor(messages: seq<Message>, index: seq<IndexRow>, id: string)
    requires IndexSound(messages, index) && !HasId(messages, id)
    ensures Keep(index, NotFor(id)) == index
  {
    forall r | r in index ensures r.messageId != id {
      var m :| m in messages && Describes(r, m);
    }
    KeepAll(index, NotFor(id));
  }

  /** A rebuild needs nothing of the rows it replaces. */
  lemma RebuiltSound(db: Db)
    requires MessagesSound(db.sessions.Keys, db.messages)
    ensures Sound(db.(index := RowsOf(Keep(db.messages, Indexable()))))
  {
    var messages := Keep(db.messages, Indexable());
    KeptMessagesSound(db.sessions.Keys, db.messages, Indexable());
    KeepMembers(db.messages, Indexable());
    var index := RowsOf(messages);
    forall r | r in index ensures Sourced(db.messages, r) {
      var i :| 0 <= i < |index| && index[i] == r;
      assert messages[i] in messages && messages[i] in db.messages && Describes(r, messages[i]);
    }
  }

  lemma BackfillStepSound(db: Db)
    requires Sound(db)
    ensures Sound(Backfilled(db))
  {
    RebuiltSound(db);
  }

  lemma StepSound(db: Db, op: Op)
    requires Sound(db)
    ensures Sound(Step(db, op))
  {
    hide Upserted, Indexed, Appended, ReplacedFrom, Backfilled, MessageId, Trim, IndexSound, MessagesSound;
    match op {
      case PersistUser(session, turn, content, w) =>
        if session in db.sessions { UpsertStepSound(db, UserMessage(session, turn, content), content, w); }
      case PersistAssistant(session, turn, content, finalAnswer, summary, w) =>
        var m := AssistantMessage(session, turn, content, finalAnswer, summary);
        if session in db.sessions {
          UpsertStepSound(db, m, if finalAnswer.Some? then finalAnswer.value else "", w);
        }
      case Append(session, content, w) => AppendStepSound(db, session, content, w);
      case ReplaceFrom(session, turn, content) => ReplaceStepSound(db, session, turn, content);
      case Backfill => BackfillStepSound(db);
    }
  }

  lemma {:induction false} RunSound(db: Db, ops: seq<Op>)
    requires Sound(db)
    ensures Sound(Run(db, ops))
    decreases ops
  {
    if ops != [] {
      StepSound(db, ops[0]);
      RunSound(Step(db, ops[0]), ops[1..]);
    }
  }

  // ---------- and what holds when sessions are deleted as well ----------

  function ElsewhereThan(session: string): Message -> bool {
    (m: Message) => m.session != session
  }

  function EventElsewhere(session: string): ToolEvent -> bool {
    (e: ToolEvent) => e.session != session
  }

  /** `delete_session`: the foreign keys take messages and tool events along, not the search rows. */
  function Deleted(db: Db, session: string): Db {
    if session !in db.sessions then db
    else Db(db.sessions - {session}, Keep(db.messages, ElsewhereThan(session)), db.index,
            Keep(db.events, EventElsewhere(session)))
  }

  lemma DeletedKeyed(db: Db, session: string)
    requires Keyed(db)
    ensures Keyed(Deleted(db, session))
  {
    KeptMessagesSound(db.sessions.Keys, db.messages, ElsewhereThan(session));
    KeepMembers(db.messages, ElsewhereThan(session));
  }

  lemma UpsertStepKeyed(db: Db, m: Message, body: string, w: IndexWrite)
    requires Keyed(db) && WellFormed(db.sessions.Keys, m)
    ensures Keyed(db.(messages := Upserted(db.messages, m)))
    ensures Keyed(db.(messages := Upserted(db.messages, m), index := Indexed(db.index, RowOf(m, body), w)))
  {
    UpsertedSound(db.sessions.Keys, db.messages, m);
    IndexedDistinct(db.index, RowOf(m, body), w);
    hide Upserted, Indexed, WellFormed, DistinctRows, MessagesSound;
  }

  lemma AppendStepKeyed(db: Db, session: string, content: string, w: IndexWrite)
    requires Keyed(db)
    ensures Keyed(Appended(db, session, content, w))
  {
    if AppendReply(db, session) == Done {
      var m := UserMessage(session, NextTurn(db.messages, session), content);
      assert Upserted(db.messages, m) == db.messages + [m];
      hide Keyed;
      UpsertStepKeyed(db, m, content, w);
    }
  }

  /** The replaced message's own old row goes with the truncated ones, even where others stay behind. */
  lemma ReplacedRowsDistinct(db: Db, session: string, turn: nat, content: string)
    requires Keyed(db) && HasUserAt(db.messages, session, turn)
    ensures DistinctRows(Keep(db.index, NotAmong(IdsFrom(db.messages, session, turn)))
                         + [RowOf(UserMessage(session, turn, content), content)])
  {
    var ids, row := IdsFrom(db.messages, session, turn), RowOf(UserMessage(session, turn, content), content);
    var x :| x in db.messages && x.session == session && x.turn == turn && x.role.User?;
    assert WellFormed(db.sessions.Keys, x) && row.messageId in ids;
    KeptRowsDistinct(db.index, NotAmong(ids));
    KeepMembers(db.index, NotAmong(ids));
    hide Keep, DistinctRows, MessageId, IdsFrom;
    RowAddedDistinct(Keep(db.index, NotAmong(ids)), row);
  }

  lemma ReplacedMessagesSound(db: Db, session: string, turn: nat, content: string)
    requires Keyed(db) && ReplaceReply(db, session, turn) == Done
    ensures MessagesSound(db.sessions.Keys,
                          Keep(db.messages, Survives(session, turn)) + [UserMessage(session, turn, content)])
  {
    var m, messages := UserMessage(session, turn, content), Keep(db.messages, Survives(session, turn));
    var x :| x in db.messages && x.session == session && x.turn == turn && x.role.User?;
    assert session in db.sessions;
    KeptMessagesSound(db.sessions.Keys, db.messages, Survives(session, turn));
    hide Keep, MessagesSound, MessageId;
    assert Upserted(messages, m) == messages + [m];
    UpsertedSound(db.sessions.Keys, messages, m);
  }

  lemma ReplaceStepKeyed(db: Db, session: string, turn: nat, content: string)
    requires Keyed(db)
    ensures Keyed(ReplacedFrom(db, session, turn, content))
  {
    if ReplaceReply(db, session, turn) == Done {
      ReplacedRowsDistinct(db, session, turn, content);
      ReplacedMessagesSound(db, session, turn, content);
      var after := ReplacedFrom(db, session, turn, content);
      hide Keep, PreviousSummary, DistinctRows, MessagesSound, MessageId, IdsFrom;
      assert after.sessions.Keys == db.sessions.Keys;
    }
  }

  lemma BackfillStepKeyed(db: Db)
    requires Keyed(db)
    ensures Keyed(Backfilled(db))
    ensures !BackfillSkips(db) ==> Sound(Backfilled(db))
  {
    RebuiltSound(db);
  }

  lemma StepKeyed(db: Db, op: Op)
    requires Keyed(db)
    ensures Keyed(Step(db, op))
  {
    hide Upserted, Indexed, Appended, ReplacedFrom, Backfilled, MessageId, Trim, DistinctRows, MessagesSound;
    match op {
      case PersistUser(session, turn, content, w) =>
        if session in db.sessions { UpsertStepKeyed(db, UserMessage(session, turn, content), content, w); }
      case PersistAssistant(session, turn, content, finalAnswer, summary, w) =>
        var m := AssistantMessage(session, turn, content, finalAnswer, summary);
        if session in db.sessions {
          UpsertStepKeyed(db, m, if finalAnswer.Some? then finalAnswer.value else "", w);
        }
      case Append(session, content, w) => AppendStepKeyed(db, session, content, w);
      case ReplaceFrom(session, turn, content) => ReplaceStepKeyed(db, session, turn, content);
      case Backfill => BackfillStepKeyed(db);
    }
  }

  /** A write, or deleting a session. */
  datatype AnyOp = Write(op: Op) | DeleteSession(session: string)

  function AnyStep(db: Db, op: AnyOp): Db {
    match op
    case Write(w) => Step(db, w)
    case DeleteSession(session) => Deleted(db, session)
  }

  function AnyRun(db: Db, ops: seq<AnyOp>): Db
    decreases ops
  {
    if ops == [] then db else AnyRun(AnyStep(db, ops[0]), ops[1..])
  }

  /** Through every run of writes and deletions, ids stay distinct, messages keep their places, and no
      message has two rows. */
  lemma {:induction false} AnyRunKeyed(db: Db, ops: seq<AnyOp>)
    requires Keyed(db)
    ensures Keyed(AnyRun(db, ops))
    decreases ops
  {
    hide Keyed, Step, Deleted;
    if ops != [] {
      match ops[0] {
        case Write(w) => StepKeyed(db, w);
        case DeleteSession(session) => DeletedKeyed(db, session);
      }
      AnyRunKeyed(AnyStep(db, ops[0]), ops[1..]);
    }
  }

  /** Turn and sequence are unique within a session. */
  lemma PlacesUnique(sessions: set<string>, messages: seq<Message>, session: string)
    requires MessagesSound(sessions, messages)
    ensures DistinctPlaces(Keep(messages, InSession(session)))
  {
    var rows := Keep(messages, InSession(session));
    KeptMessagesSound(sessions, messages, InSession(session));
    KeepMembers(messages, InSession(session));
    forall i, j | 0 <= i < j < |rows| ensures Before(rows[i], rows[j]) || Before(rows[j], rows[i]) {
      assert rows[i] in rows && rows[j] in rows;
    }
  }
}
