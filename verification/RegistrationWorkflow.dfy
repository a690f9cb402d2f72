/**
 The workflow in its own form: objects that update the table and the chats' screens in place. Each
 handler is proved to compute the serial specification, going through row objects with dirty flags
 and through the SQL text of an insert.
 */
module RegistrationWorkflow {
  import opened Common
  import opened FormStates
  import opened Records
  import opened Conversation
  import opened RegistrationModel
  import opened Serial

  class RegistrationRepository {
    var rows: map<int, Row>

    constructor ()
      ensures rows == map[]
    {
      rows := map[];
    }

    /** A hit exactly when one row matches; the object handed out has nothing set. */
    method FindByChatId(chatId: int) returns (r: Registrations?)
      ensures r == null <==> Find(rows, chatId).None?
      ensures r != null ==> fresh(r) && r.Valid() && r.cells == CellsOf(Find(rows, chatId).value)
      ensures r != null ==> r.View() == Load(Find(rows, chatId).value)
    {
      var ids := set id | id in rows && rows[id].chatId == chatId;
      if |ids| == 1 {
        NonEmpty(ids);
        var id :| id in ids;
        SingletonOnly(ids, id);
        forall j | j in rows && rows[j].chatId == chatId ensures j == id {
          assert j in ids;
        }
        assert OnlyRow(rows, chatId, id);
        r := new Registrations.FromRow(rows[id]);
      } else {
        r := null;
        forall id ensures !OnlyRow(rows, chatId, id) {
          if OnlyRow(rows, chatId, id) {
            OnlyRowCount(rows, chatId, id);
          }
        }
      }
    }

    /**
     The database runs an insert it could read: the listed columns take the bound arguments, the
     others their defaults. It refuses a null and a missing chat or state.
     */
    method Execute(statement: Option<InsertStatement>, args: seq<Cell>, id: int) returns (ok: bool)
      requires statement.Some? ==> |statement.value.columns| == |args|
      modifies this
      ensures ok <==> statement.Some? && Null !in args && !Unlisted(statement.value.columns)
      ensures rows == if ok then old(rows)[id := AssignAll(DefaultRow(id), statement.value.columns, args)] else old(rows)
    {
      ok := statement.Some? && Null !in args && !Unlisted(statement.value.columns);
      if ok {
        rows := rows[id := AssignAll(DefaultRow(id), statement.value.columns, args)];
      }
    }

    /** Sends the insert of the set columns to the database; false stands for its exception. */
    method InsertRow(registration: Registrations, id: int) returns (ok: bool, needSelection: bool)
      requires registration.Valid()
      modifies this
      ensures ok <==> NoNullSet(registration.cells, registration.dirty)
                      && registration.dirty[CHAT_ID] && registration.dirty[STATE]
      ensures rows == if ok then old(rows)[id := Overlay(DefaultRow(id), registration.View())] else old(rows)
      ensures needSelection <==> UnsetBelow(registration.dirty, 9)
    {
      var statement: Option<InsertStatement>;
      statement, needSelection := Prepare(registration);
      var args := registration.BoundArgs();
      ok := Execute(statement, args, id);
      InsertRefused(registration.cells, registration.dirty);
      if ok {
        UpdateBindsOverlay(DefaultRow(id), registration.cells, registration.dirty);
      }
    }

    /**
     Inserts the set columns. When columns with a default were left out, the row is read back as a
     clean object; otherwise the caller's object is returned with its id. Null stands for the exception.
     */
    method Save(registration: Registrations, id: int) returns (r: Registrations?)
      requires registration.Valid() && id !in rows
      modifies this
      ensures r == null <==> !(NoNullSet(registration.cells, registration.dirty)
                               && registration.dirty[CHAT_ID] && registration.dirty[STATE])
      ensures r == null ==> rows == old(rows)
      ensures r != null ==> rows == old(rows)[id := Overlay(DefaultRow(id), registration.View())]
      ensures r != null ==> fresh(r) && r.Valid() && r.View().row == rows[id]
      ensures r != null && UnsetBelow(registration.dirty, 9) ==> r.View() == Load(rows[id]) && r.cells == CellsOf(rows[id])
    {
      var ok, needSelection := InsertRow(registration, id);
      if !ok {
        r := null;
      } else if needSelection {
        r := new Registrations.FromRow(rows[id]);
      } else {
        EverythingSet(id, registration.cells, registration.dirty);
        r := new Registrations();
        r.cells, r.dirty := registration.cells[ID := Int(id)], registration.dirty;
      }
    }

    /** Writes the set columns of `registration` to the row with its id; false stands for an SQL error. */
    method Update(registration: Registrations) returns (ok: bool)
      requires registration.Valid()
      modifies this
      ensures ok <==> NoNullSet(registration.cells, registration.dirty)
      ensures rows == if ok then Conversation.Update(old(rows), registration.View()) else old(rows)
    {
      var names := registration.UpdateColumns();
      var args := registration.BoundArgs();
      var key := IntOf(registration.cells[ID]);
      ok := Null !in args;
      NullBound(registration.cells, registration.dirty);
      if ok && key in rows {
        UpdateBindsOverlay(rows[key], registration.cells, registration.dirty);
        rows := rows[key := AssignAll(rows[key], names, args)];
      }
    }
  }

  /** The text of the insert, as the database reads it. */
  method Prepare(registration: Registrations) returns (statement: Option<InsertStatement>, needSelection: bool)
    requires registration.Valid()
    ensures var names := Names(DirtyBelow(registration.dirty, 9));
      statement == if names == [] then None else Some(InsertStatement(TABLE_NAME, names, |names|))
    ensures needSelection <==> UnsetBelow(registration.dirty, 9)
  {
    var sql: string;
    sql, needSelection := registration.SqlForInserting();
    ColumnNamesAreNames();
    hide COLUMN_NAMES;
    InsertTextParses(Names(DirtyBelow(registration.dirty, 9)));
    statement := ParseInsert(sql);
  }

  lemma ColumnNamesAreNames()
    ensures forall c: Column :: IsName(COLUMN_NAMES[c])
  {
  }

  lemma NonEmpty(ids: set<int>)
    requires |ids| == 1
    ensures exists id :: id in ids
  {
    assert (forall id :: id !in ids) ==> ids == {};
  }

  lemma OnlyRowCount(table: map<int, Row>, chat: int, id: int)
    requires OnlyRow(table, chat, id)
    ensures |set j | j in table && table[j].chatId == chat| == 1
  {
    var ids := set j | j in table && table[j].chatId == chat;
    assert forall j :: j in ids <==> j in {id};
    assert ids == {id};
  }

  lemma SingletonOnly(ids: set<int>, id: int)
    requires |ids| == 1 && id in ids
    ensures ids == {id}
  {
    assert |ids - {id}| == 0;
  }

  lemma NullBound(cells: seq<Cell>, dirty: seq<bool>)
    requires |cells| == 9 && |dirty| == 9
    ensures NoNullSet(cells, dirty) <==> Null !in CellsAt(cells, DirtyBelow(dirty, 9))
  {
    var cols := DirtyBelow(dirty, 9);
    if !NoNullSet(cells, dirty) {
      var c: Column :| c != ID && dirty[c] && cells[c].Null?;
      assert c in cols;
      var k :| 0 <= k < |cols| && cols[k] == c;
      assert CellsAt(cells, cols)[k] == Null;
    } else {
      forall k | 0 <= k < |cols| ensures CellsAt(cells, cols)[k] != Null {
        assert cols[k] in cols;
      }
    }
  }

  /** When every column was set, the object passed in already shows the inserted row. */
  lemma EverythingSet(id: int, cells: seq<Cell>, dirty: seq<bool>)
    requires Typed(cells) && |dirty| == 9 && !UnsetBelow(dirty, 9) && dirty[CHAT_ID] && dirty[STATE]
    ensures RowOf(cells[ID := Int(id)]) == Overlay(DefaultRow(id), Record(RowOf(cells), DirtySet(dirty)))
  {
    assert dirty[MESSAGE_ID] && dirty[NAME] && dirty[COMPANY] && dirty[COMPANY_POSITION];
    assert dirty[PHRASE] && dirty[TELEGRAM_NICKNAME];
  }

  lemma NameListed(cols: seq<Column>, c: Column)
    ensures COLUMN_NAMES[c] in Names(cols) <==> c in cols
  {
    if c in cols {
      var k :| 0 <= k < |cols| && cols[k] == c;
      assert Names(cols)[k] == COLUMN_NAMES[c];
    }
    if COLUMN_NAMES[c] in Names(cols) {
      var k :| 0 <= k < |cols| && Names(cols)[k] == COLUMN_NAMES[c];
      NamesDistinct(cols[k], c);
    }
  }

  lemma NamesDistinct(c: Column, d: Column)
    requires COLUMN_NAMES[c] == COLUMN_NAMES[d]
    ensures c == d
  {
    assert |COLUMN_NAMES[c]| == |COLUMN_NAMES[d]| && COLUMN_NAMES[c][1] == COLUMN_NAMES[d][1];
  }

  /** A column without a default is not among the listed ones. */
  predicate Unlisted(columns: seq<string>) {
    COLUMN_NAMES[CHAT_ID] !in columns || COLUMN_NAMES[STATE] !in columns
  }

  /** What the NOT NULL constraints refuse, read off the statement's text and arguments. */
  lemma InsertRefused(cells: seq<Cell>, dirty: seq<bool>)
    requires |cells| == 9 && |dirty| == 9
    ensures var cols := DirtyBelow(dirty, 9);
      Null in CellsAt(cells, cols) || Unlisted(Names(cols))
      <==> !(NoNullSet(cells, dirty) && dirty[CHAT_ID] && dirty[STATE])
  {
    NullBound(cells, dirty);
    NameListed(DirtyBelow(dirty, 9), CHAT_ID);
    NameListed(DirtyBelow(dirty, 9), STATE);
  }

  /** The part of the Telegram API the workflow uses; new message ids come from Telegram. */
  class BotApi {
    var screen: map<MessageKey, Message>

    constructor ()
      ensures screen == map[]
    {
      screen := map[];
    }

    /** Fails, as an exception, when the chat has no such message. */
    method EditMessageText(chatId: int, messageId: int, text: string, back: bool) returns (ok: bool)
      modifies this
      ensures ok <==> MessageKey(chatId, messageId) in old(screen)
      ensures screen == if ok then old(screen)[MessageKey(chatId, messageId) := Message(text, back)] else old(screen)
    {
      ok := MessageKey(chatId, messageId) in screen;
      if ok {
        screen := screen[MessageKey(chatId, messageId) := Message(text, back)];
      }
    }

    /** Removes a message's keyboard, if the message is there and Telegram still lets it be edited. */
    method EditMessageReplyMarkup(chatId: int, messageId: int, editable: bool) returns (ok: bool)
      modifies this
      ensures ok <==> editable && MessageKey(chatId, messageId) in old(screen)
      ensures screen == if ok
        then old(screen)[MessageKey(chatId, messageId) := old(screen)[MessageKey(chatId, messageId)].(back := false)]
        else old(screen)
    {
      var key := MessageKey(chatId, messageId);
      ok := editable && key in screen;
      if ok {
        screen := screen[key := screen[key].(back := false)];
      }
    }

    method SendMessage(chatId: int, messageId: int, text: string, back: bool)
      modifies this
      ensures screen == old(screen)[MessageKey(chatId, messageId) := Message(text, back)]
    {
      screen := screen[MessageKey(chatId, messageId) := Message(text, back)];
    }
  }

  class RegistrationWorkflow {
    const repository: RegistrationRepository
    const api: BotApi

    constructor (repository: RegistrationRepository, api: BotApi)
      ensures this.repository == repository && this.api == api
    {
      this.repository := repository;
      this.api := api;
    }

    ghost function State(): Store
      reads repository, api
    {
      Store(repository.rows, api.screen)
    }

    method ShowFormPrompt(chatId: int, state: RegistrationState, promptId: int) returns (returned: bool)
      modifies repository, api
      ensures (State(), returned) == ShownForm(old(State()), chatId, state, promptId)
    {
      var row := repository.FindByChatId(chatId);
      if row == null {
        return true;
      }
      row.SetState(RawValue(state));
      var ok := repository.Update(row);
      var current := RowOf(row.cells);
      returned := api.EditMessageText(chatId, current.messageId, FormText(current), CanGoBack(state));
      if returned {
        api.SendMessage(chatId, promptId, Prompt(state), false);
      }
    }

    method ProcessMessage(chatId: int, text: string, promptId: int, thanksId: int)
      modifies repository, api
      ensures State() == AfterSaid(old(State()), chatId, text, promptId, thanksId)
    {
      var row := repository.FindByChatId(chatId);
      if row == null {
        return;
      }
      var state := GetState(RowOf(row.cells).state);
      if state.None? || state.value == Completed {
        return;
      }
      if state.value == WaitingPhrase {
        SavePhrase(chatId, text, promptId, thanksId);
      } else {
        SaveAnswer(chatId, state.value, text, promptId);
      }
    }

    /** `saveFullName`, `saveCompanyName` and `saveCompanyPosition`. */
    method SaveAnswer(chatId: int, expected: RegistrationState, text: string, promptId: int)
      requires expected != WaitingPhrase && expected != Completed
      modifies repository, api
      ensures var s := old(State());
        State() == match Find(s.table, chatId)
          case None => s
          case Some(row) =>
            if GetState(row.state) != Some(expected) then s
            else
              ShownForm(s.(table := Conversation.Update(s.table, Answered(row, expected, text))),
                chatId, TargetAfter(expected), promptId).0
    {
      var row := repository.FindByChatId(chatId);
      if row == null || GetState(RowOf(row.cells).state) != Some(expected) {
        return;
      }
      row.SetAnswer(expected, text);
      var ok := repository.Update(row);
      var returned := ShowFormPrompt(chatId, TargetAfter(expected), promptId);
    }

    method SavePhrase(chatId: int, phrase: string, promptId: int, thanksId: int)
      modifies repository, api
      ensures var s := old(State());
        State() == match Find(s.table, chatId)
          case None => s
          case Some(row) =>
            if GetState(row.state) != Some(WaitingPhrase) then s
            else
              var (s', returned) := ShownForm(s.(table := Conversation.Update(s.table, Answered(row, WaitingPhrase, phrase))),
                chatId, Completed, promptId);
              if returned then Show(s', chatId, thanksId, THANK_YOU, false) else s'
    {
      var row := repository.FindByChatId(chatId);
      if row == null || GetState(RowOf(row.cells).state) != Some(WaitingPhrase) {
        return;
      }
      row.SetAnswer(WaitingPhrase, phrase);
      row.SetState(RawValue(Completed));
      var ok := repository.Update(row);
      var returned := ShowFormPrompt(chatId, Completed, promptId);
      if returned {
        api.SendMessage(chatId, thanksId, THANK_YOU, false);
      }
    }

    method ReplyBackQuery(chatId: int, clicked: int, promptId: int)
      modifies repository, api
      ensures State() == AfterBack(old(State()), chatId, clicked, promptId)
    {
      var row := repository.FindByChatId(chatId);
      if row == null || clicked != RowOf(row.cells).messageId {
        return;
      }
      var state := GetState(RowOf(row.cells).state);
      if state.None? || !CanGoBack(state.value) {
        return;
      }
      var newState := Prev(state.value);
      row.SetState(RawValue(newState));
      match newState {
        case WaitingName => row.SetAnswer(WaitingName, "");
        case WaitingCompanyName => row.SetAnswer(WaitingCompanyName, "");
        case WaitingCompanyPosition => row.SetAnswer(WaitingCompanyPosition, "");
        case _ =>
      }
      var ok := repository.Update(row);
      var returned := ShowFormPrompt(chatId, newState, promptId);
    }

    /** `resumeRegistrationIfNeeded` and `resumeRegistration`. */
    method ResumeRegistration(chatId: int, formId: int, promptId: int, editable: bool)
      modifies repository, api
      ensures State() == AfterResume(old(State()), chatId, formId, promptId, editable)
    {
      var row := repository.FindByChatId(chatId);
      if row == null {
        return;
      }
      var model := RowOf(row.cells);
      var state := GetState(model.state);
      if state.None? {
        return;
      }
      if state.value == Completed {
        api.SendMessage(chatId, promptId, THANK_YOU, false);
        return;
      }
      if model.messageId != 0 {
        // A failure is logged, and the form is sent all the same.
        var cleared := api.EditMessageReplyMarkup(chatId, model.messageId, editable);
      }
      api.SendMessage(chatId, formId, FormText(model), CanGoBack(state.value));
      row.SetMessageId(formId);
      var ok := repository.Update(row);
      api.SendMessage(chatId, promptId, Prompt(state.value), false);
    }

    method RequestFullName(chatId: int, username: string, rowId: int, promptId: int)
      requires rowId !in repository.rows
      modifies repository, api
      ensures State() == AfterWant(old(State()), chatId, username, rowId, promptId)
    {
      var model := new Registrations();
      model.SetChatId(chatId);
      model.SetState(RawValue(WaitingName));
      model.SetTelegramNickname(username);
      var row := repository.Save(model, rowId);
      api.SendMessage(chatId, promptId, Prompt(WaitingName), false);
      row.SetMessageId(promptId);
      var ok := repository.Update(row);
    }
  }
}
