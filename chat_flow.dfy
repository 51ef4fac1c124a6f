/** One rendering of the chat page: make sure the log file has its header,
    then, when the user typed something, answer it, record the exchange in
    the session's message list and append one row to the log. */
module ChatFlow {
  import opened Corpus
  import opened Responder
  import opened ConversationLog

  /** One entry of the session's message list. `bot` is `None` when the
      lookup found no intent. */
  datatype Message = Message(user: string, bot: Option<string>, time: string)

  /** The per-session message list, created empty on first use. */
  class Session {
    var messages: seq<Message>

    constructor ()
      ensures messages == []
    {
      messages := [];
    }
  }

  /** The reply as stored in the session message. */
  function BotValue(r: Reply): (v: Option<string>)
    ensures v.Some? <==> r.Said?
    ensures v.Some? ==> v.value == r.text
  {
    if r.Said? then Some(r.text) else None
  }

  /** The reply as written to the log: the delimited-file writer turns a
      missing value into an empty field. */
  function LoggedResponse(r: Reply): (t: string)
    ensures r.Said? ==> t == r.text
    ensures !r.Said? ==> t == ""
  {
    match BotValue(r) case None => "" case Some(text) => text
  }

  /** One turn of the chat page. Empty input does nothing and consults nothing.
      Otherwise the chatbot answers; if picking a response fails, the error
      ends the turn before anything is recorded; else one message and one row
      are appended. */
  method Turn(log: LogFile, session: Session, intents: seq<Intent>, classify: string -> string,
              input: string, timestamp: string)
    returns (reply: Option<Reply>)
    modifies log, session
    ensures input == "" <==> reply.None?
    ensures reply.Some? ==> Permitted(intents, classify(input), reply.value)
    ensures reply.None? || reply.value.EmptyResponses? ==> unchanged(log, session)
    ensures reply.Some? && !reply.value.EmptyResponses? ==>
              log.store == Appended(old(log.store), Row(input, LoggedResponse(reply.value), timestamp)) &&
              session.messages == old(session.messages) + [Message(input, BotValue(reply.value), timestamp)]
  {
    if input == "" {
      reply := None;
      return;
    }
    var r := Chatbot(intents, classify, input);
    reply := Some(r);
    if r.EmptyResponses? {
      return;
    }
    session.messages := session.messages + [Message(input, BotValue(r), timestamp)];
    log.Append(Row(input, LoggedResponse(r), timestamp));
  }

  /** One rendering of the chat page: the header check first, then the turn. */
  method ChatPage(log: LogFile, session: Session, intents: seq<Intent>, classify: string -> string,
                  input: string, timestamp: string)
    returns (reply: Option<Reply>)
    modifies log, session
    ensures input == "" <==> reply.None?
    ensures reply.Some? ==> Permitted(intents, classify(input), reply.value)
    ensures reply.None? || reply.value.EmptyResponses? ==>
              log.store == WithHeader(old(log.store)) && session.messages == old(session.messages)
    ensures reply.Some? && !reply.value.EmptyResponses? ==>
              log.store == Appended(WithHeader(old(log.store)), Row(input, LoggedResponse(reply.value), timestamp)) &&
              session.messages == old(session.messages) + [Message(input, BotValue(reply.value), timestamp)]
  {
    log.EnsureHeader();
    reply := Turn(log, session, intents, classify, input, timestamp);
  }

  /** The log after the chat page has been shown once and then once per
      recorded row: every rendering checks the header, each turn appends. */
  function AfterTurns(s: Store, rows: seq<Row>): Store
  {
    if rows == [] then WithHeader(s)
    else Appended(WithHeader(AfterTurns(s, rows[..|rows| - 1])), rows[|rows| - 1])
  }

  /** Header checks between turns never add rows: the page-by-page log is
      the header-checked log with the turns' rows appended. */
  lemma {:induction false} AfterTurnsAppends(s: Store, rows: seq<Row>)
    ensures AfterTurns(s, rows) == AppendedAll(WithHeader(s), rows)
  {
    if rows != [] {
      AfterTurnsAppends(s, rows[..|rows| - 1]);
      AppendedAllRows(WithHeader(s), rows[..|rows| - 1]);
    }
  }

  /** After N recorded turns starting with no log file, the history view
      shows exactly those N rows in turn order. */
  lemma HistoryAfterTurns(rows: seq<Row>)
    ensures ReadHistory(AfterTurns(None, rows)) == Entries(rows)
  {
    AfterTurnsAppends(None, rows);
    HistoryOfFreshLog(rows);
  }
}
