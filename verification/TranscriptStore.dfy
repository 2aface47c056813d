/** The database's message operations, statement by statement (core/src/db.rs). */
module TranscriptStore {
  import opened Rows
  import opened Text
  import opened Transcript
  import opened MessageWrites
  import opened SearchIndex

  class Store {
    var sessions: map<string, Session>
    var messages: seq<Message>
    var index: seq<IndexRow>
    var events: seq<ToolEvent>

    function Current(): Db
      reads this
    {
      Db(sessions, messages, index, events)
    }

    method IndexMessageFts(row: IndexRow, w: IndexWrite)
      modifies `index
      ensures index == Indexed(old(index), row, w)
    {
      if w != DeleteFailed {
        index := Keep(index, NotFor(row.messageId));
        if w != InsertFailed {
          index := index + [row];
        }
      }
    }

    method PersistGuiUserMessage(session: string, turn: nat, content: string, w: IndexWrite) returns (r: Reply)
      modifies this
      ensures r == if session in old(sessions) then Done else Failed
      ensures Current() == Step(old(Current()), PersistUser(session, turn, content, w))
    {
      if session !in sessions { return Failed; }
      var m := UserMessage(session, turn, content);
      messages := Upserted(messages, m);
      IndexMessageFts(RowOf(m, content), w);
      r := Done;
    }

    method PersistGuiAssistantMessage(session: string, turn: nat, content: string, finalAnswer: Option<string>,
                                      summary: Option<string>, w: IndexWrite) returns (r: Reply)
      modifies this
      ensures r == if session in old(sessions) then Done else Failed
      ensures Current() == Step(old(Current()), PersistAssistant(session, turn, content, finalAnswer, summary, w))
    {
      if session !in sessions { return Failed; }
      var m := AssistantMessage(session, turn, content, finalAnswer, summary);
      messages := Upserted(messages, m);
      if finalAnswer.Some? && Trim(finalAnswer.value) != "" {
        IndexMessageFts(RowOf(m, finalAnswer.value), w);
      }
      r := Done;
    }

    /** `insert_user_message_inner`; in a sound database it never fails on a taken id. */
    method SendMessage(session: string, content: string, w: IndexWrite) returns (r: Reply)
      requires Keyed(Current())
      modifies this
      ensures r == if session !in old(sessions) then NotFound
                   else if old(sessions)[session].archived then InvalidArgs else Done
      ensures Current() == Step(old(Current()), Append(session, content, w))
    {
      if session !in sessions { return NotFound; }
      if sessions[session].archived { return InvalidArgs; }
      AppendIsFresh(Current(), session);
      var m := UserMessage(session, NextTurn(messages, session), content);
      if HasId(messages, m.id) { return Failed; }
      messages := messages + [m];
      IndexMessageFts(RowOf(m, content), w);
      r := Done;
    }

    method ReplaceGuiUserMessageFromTurn(session: string, turn: nat, content: string) returns (r: Reply)
      requires Keyed(Current())
      modifies this
      ensures r == if turn == 0 then InvalidArgs
                   else if HasUserAt(old(messages), session, turn) then Done else NotFound
      ensures Current() == Step(old(Current()), ReplaceFrom(session, turn, content))
    {
      if turn == 0 { return InvalidArgs; }
      if !HasUserAt(messages, session, turn) { return NotFound; }
      ReplaceFindsRoom(Current(), session, turn);
      var summary := PreviousSummary(messages, session, turn);
      hide PreviousSummary, Keyed, HasUserAt;
      index := Keep(index, NotAmong(IdsFrom(messages, session, turn)));
      events := Keep(events, EventSurvives(session, turn));
      messages := Keep(messages, Survives(session, turn));
      var m := UserMessage(session, turn, content);
      messages := messages + [m];
      index := index + [RowOf(m, content)];
      if session in sessions {
        sessions := sessions[session := sessions[session].(turnCount := turn - 1, summary := summary)];
      }
      r := Done;
    }

    method BackfillFtsIfEmpty() returns (rows: nat)
      modifies `index
      ensures Current() == Step(old(Current()), Backfill)
      ensures rows == if BackfillSkips(old(Current())) then 0 else |index|
    {
      var found := Keep(messages, Indexable());
      if |index| >= |found| { return 0; }
      index := [];
      index := RowsOf(found);
      rows := |index|;
    }

    method DeleteSession(session: string) returns (r: Reply)
      modifies this
      ensures r == if session in old(sessions) then Done else NotFound
      ensures Current() == Deleted(old(Current()), session)
    {
      if session !in sessions { return NotFound; }
      sessions := sessions - {session};
      messages := Keep(messages, ElsewhereThan(session));
      events := Keep(events, EventElsewhere(session));
      r := Done;
    }

    /** The whole transcript, or its last `n` entries. */
    method SessionMessages(session: string, tail: Option<nat>) returns (rows: seq<Message>)
      requires Keyed(Current())
      ensures rows == match tail case None => FullTranscript(messages, session)
                                 case Some(n) => LastOf(FullTranscript(messages, session), n)
    {
      match tail {
        case Some(n) =>
          PlacesUnique(sessions.Keys, messages, session);
          TailIsLastOfTranscript(messages, session, n);
          rows := OrderBy(Keep(messages, InSession(session)), true);
          rows := if n <= |rows| then rows[..n] else rows;
          rows := Reversed(rows);
        case None =>
          rows := OrderBy(Keep(messages, InSession(session)), false);
      }
    }
  }
}
