/**
 The registration conversation as an interleaved step system. Every handler is a small program
 whose program points are the `co_await`s of the workflow; one step performs one awaited operation
 and runs the handler up to its next `co_await`. Between two steps of a handler any other handler
 may run, so the rows a handler holds may be stale.
 */
module Conversation {
  import opened Common
  import opened FormStates
  import opened Records

  /** One in-flight coroutine; `ticket` tells apart the handlers of one chat. */
  datatype HandlerId = HandlerId(chat: int, ticket: int)

  datatype MessageKey = MessageKey(chat: int, id: int)

  /** A message on a chat's screen; `back` says whether it carries the form's Back button. */
  datatype Message = Message(text: string, back: bool)

  /** What handlers share: the table, by primary key, and what the chats display. */
  datatype Store = Store(table: map<int, Row>, screen: map<MessageKey, Message>)

  /** An update that starts a handler. */
  datatype Request =
    | Answer(text: string)
    | Back(clicked: int)
    | Resume
    | WantParticipate(username: string)

  /** The awaited operation a handler is suspended on, with the locals it still needs. */
  datatype Pc =
    | FindMessage(text: string)
    | FindAnswer(expected: RegistrationState, text: string)
    | WriteAnswer(rec: Record, answered: RegistrationState)
    | FindPrompt(rowId: int, target: RegistrationState)
    | WritePrompt(rec: Record, target: RegistrationState)
    | EditForm(form: string, messageId: int, target: RegistrationState)
    | SendPrompt(target: RegistrationState)
    | SendThanks
    | FindBack(clicked: int)
    | AnswerAndStop
    | AnswerBack(rec: Record)
    | WriteBack(rec: Record, target: RegistrationState)
    | FindResume
    | ClearStale(rec: Record)
    | SendForm(rec: Record)
    | WriteMessageId(rec: Record, prompt: Option<RegistrationState>)
    | SendResumePrompt(state: RegistrationState)
    | Greet(calls: nat, username: string)
    | Insert(username: string)
    | SendFirstPrompt(rec: Record)
    | Finished

  /** How an awaited operation ends: normally, with a Telegram exception, or with a fresh id. */
  datatype Reply = Done | Fault | Fresh(id: int)

  // ---------------------------------------------------------------- database

  ghost predicate OnlyRow(table: map<int, Row>, chat: int, id: int) {
    && id in table && table[id].chatId == chat
    && forall j :: j in table && table[j].chatId == chat ==> j == id
  }

  /** A hit only when exactly one row matches: several matches miss like none. */
  ghost function Find(table: map<int, Row>, chat: int): (r: Option<Row>)
    ensures r.Some? ==> exists id :: OnlyRow(table, chat, id) && r.value == table[id]
    ensures forall id :: OnlyRow(table, chat, id) ==> r == Some(table[id])
  {
    if exists id :: OnlyRow(table, chat, id) then
      var id :| OnlyRow(table, chat, id);
      Some(table[id])
    else
      None
  }

  /** `update ... where id = ?` with the set columns. */
  function Update(table: map<int, Row>, rec: Record): map<int, Row> {
    if rec.row.id in table then table[rec.row.id := Overlay(table[rec.row.id], rec)] else table
  }

  function NewRow(id: int, chat: int, username: string): Row {
    DefaultRow(id).(chatId := chat, state := RawValue(WaitingName), telegramNickname := username)
  }

  // ---------------------------------------------------------------- one handler

  function Begin(request: Request): Pc {
    match request
    case Answer(text) => FindMessage(text)
    case Back(clicked) => FindBack(clicked)
    case Resume => FindResume
    case WantParticipate(username) => Greet(4, username)
  }

  /** The state each save handler asks for next, as written out in the handlers. */
  function TargetAfter(answered: RegistrationState): RegistrationState {
    match answered
    case WaitingName => WaitingCompanyName
    case WaitingCompanyName => WaitingCompanyPosition
    case WaitingCompanyPosition => WaitingPhrase
    case _ => Completed
  }

  /** The row object a save handler writes: its answer, and for the phrase also the final state. */
  function Answered(row: Row, s: RegistrationState, text: string): Record {
    var rec := Load(row).SetAnswer(s, text);
    if s == WaitingPhrase then rec.SetState(RawValue(Completed)) else rec
  }

  /** The row object an accepted Back writes: the previous state, and that state's answer cleared. */
  function SteppedBack(rec: Record, to: RegistrationState): Record {
    var moved := rec.SetState(RawValue(to));
    match to
    case WaitingName => moved.SetAnswer(WaitingName, "")
    case WaitingCompanyName => moved.SetAnswer(WaitingCompanyName, "")
    case WaitingCompanyPosition => moved.SetAnswer(WaitingCompanyPosition, "")
    case _ => moved
  }

  /** The replies the database and Telegram can give at a program point. */
  ghost predicate Possible(s: Store, chat: int, pc: Pc, reply: Reply) {
    match pc
    case EditForm(_, messageId, _) =>
      reply == Fault || (reply == Done && MessageKey(chat, messageId) in s.screen)
    case SendPrompt(_) => CanSend(s, chat, reply)
    case SendThanks => CanSend(s, chat, reply)
    case SendForm(_) => CanSend(s, chat, reply)
    case SendResumePrompt(_) => CanSend(s, chat, reply)
    case SendFirstPrompt(_) => CanSend(s, chat, reply)
    case AnswerAndStop => reply == Done || reply == Fault
    case AnswerBack(_) => reply == Done || reply == Fault
    case ClearStale(_) => reply == Done || reply == Fault
    case Greet(_, _) => reply == Done || reply == Fault
    case Insert(_) => reply.Fresh? && reply.id !in s.table
    case Finished => false
    case _ => reply == Done
  }

  ghost predicate CanSend(s: Store, chat: int, reply: Reply) {
    reply == Fault || (reply.Fresh? && reply.id > 0 && MessageKey(chat, reply.id) !in s.screen)
  }

  function Show(s: Store, chat: int, id: int, text: string, back: bool): Store {
    s.(screen := s.screen[MessageKey(chat, id) := Message(text, back)])
  }

  /** Removes the keyboard of a message, if the message exists. */
  function ClearKeyboard(s: Store, chat: int, id: int): Store {
    var key := MessageKey(chat, id);
    if key in s.screen then s.(screen := s.screen[key := s.screen[key].(back := false)]) else s
  }

  /** After `showFormPrompt` returns to its caller; `savePhrase` still thanks the chat. */
  function AfterPrompt(target: RegistrationState): Pc {
    if target == Completed then SendThanks else Finished
  }

  /** One awaited operation of a handler of `chat`, and the code up to the next one. */
  ghost function Proceed(s: Store, chat: int, pc: Pc, reply: Reply): (Store, Pc) {
    match pc
    case FindMessage(text) =>
      (s, match Find(s.table, chat)
          case None => Finished
          case Some(row) =>
            match GetState(row.state)
            case None => Finished
            case Some(state) => if state == Completed then Finished else FindAnswer(state, text))
    case FindAnswer(expected, text) =>
      (s, match Find(s.table, chat)
          case None => Finished
          case Some(row) =>
            if GetState(row.state) != Some(expected) then Finished
            else WriteAnswer(Answered(row, expected, text), expected))
    case WriteAnswer(rec, answered) =>
      (s.(table := Update(s.table, rec)), FindPrompt(rec.row.id, TargetAfter(answered)))
    case FindPrompt(_, target) =>
      (s, match Find(s.table, chat)
          case None => AfterPrompt(target)
          case Some(row) => WritePrompt(Load(row).SetState(RawValue(target)), target))
    case WritePrompt(rec, target) =>
      (s.(table := Update(s.table, rec)), EditForm(FormText(rec.row), rec.row.messageId, target))
    case EditForm(form, messageId, target) =>
      if reply == Fault then (s, Finished)
      else (Show(s, chat, messageId, form, CanGoBack(target)), SendPrompt(target))
    case SendPrompt(target) =>
      if !reply.Fresh? then (s, Finished)
      else (Show(s, chat, reply.id, Prompt(target), false), AfterPrompt(target))
    case SendThanks =>
      if !reply.Fresh? then (s, Finished) else (Show(s, chat, reply.id, THANK_YOU, false), Finished)
    case FindBack(clicked) =>
      (s, match Find(s.table, chat)
          case None => AnswerAndStop
          case Some(row) => if clicked != row.messageId then AnswerAndStop else AnswerBack(Load(row)))
    case AnswerAndStop => (s, Finished)
    case AnswerBack(rec) =>
      (s, if reply == Fault then Finished
          else match GetState(rec.row.state)
               case None => Finished
               case Some(state) =>
                 if !CanGoBack(state) then Finished
                 else WriteBack(SteppedBack(rec, Prev(state)), Prev(state)))
    case WriteBack(rec, target) =>
      (s.(table := Update(s.table, rec)), FindPrompt(rec.row.id, target))
    case FindResume =>
      (s, match Find(s.table, chat)
          case None => Finished
          case Some(row) =>
            match GetState(row.state)
            case None => Finished
            case Some(state) =>
              if state == Completed then SendThanks
              else if row.messageId != 0 then ClearStale(Load(row))
              else SendForm(Load(row)))
    case ClearStale(rec) =>
      (if reply == Fault then s else ClearKeyboard(s, chat, rec.row.messageId), SendForm(rec))
    case SendForm(rec) =>
      if !reply.Fresh? || GetState(rec.row.state).None? then (s, Finished)
      else
        var state := GetState(rec.row.state).value;
        (Show(s, chat, reply.id, FormText(rec.row), CanGoBack(state)),
         WriteMessageId(rec.SetMessageId(reply.id), Some(state)))
    case WriteMessageId(rec, prompt) =>
      (s.(table := Update(s.table, rec)), if prompt.Some? then SendResumePrompt(prompt.value) else Finished)
    case SendResumePrompt(state) =>
      if !reply.Fresh? then (s, Finished) else (Show(s, chat, reply.id, Prompt(state), false), Finished)
    case Greet(calls, username) =>
      (s, if reply == Fault then Finished
          else if calls > 1 then Greet(calls - 1, username) else Insert(username))
    case Insert(username) =>
      if !reply.Fresh? then (s, Finished)
      else
        var row := NewRow(reply.id, chat, username);
        (s.(table := s.table[reply.id := row]), SendFirstPrompt(Load(row)))
    case SendFirstPrompt(rec) =>
      if !reply.Fresh? then (s, Finished)
      else (Show(s, chat, reply.id, Prompt(WaitingName), false), WriteMessageId(rec.SetMessageId(reply.id), None))
    case Finished => (s, Finished)
  }

  // ---------------------------------------------------------------- all handlers

  datatype World = World(store: Store, handlers: map<HandlerId, Pc>)

  /** A handler starts, performs its awaited operation, or is lost at its current `co_await`. */
  datatype Label =
    | Start(h: HandlerId, request: Request)
    | Advance(h: HandlerId, reply: Reply)
    | Abort(h: HandlerId)

  ghost predicate Enabled(w: World, l: Label) {
    match l
    // The controller drops empty messages before any handler starts.
    case Start(h, request) => h !in w.handlers && (request.Answer? ==> request.text != "")
    case Advance(h, reply) => h in w.handlers && Possible(w.store, h.chat, w.handlers[h], reply)
    case Abort(h) => h in w.handlers
  }

  ghost function Step(w: World, l: Label): World {
    match l
    case Start(h, request) => w.(handlers := w.handlers[h := Begin(request)])
    case Advance(h, reply) =>
      if h !in w.handlers then w
      else
        var (store, pc) := Proceed(w.store, h.chat, w.handlers[h], reply);
        World(store, if pc.Finished? then w.handlers - {h} else w.handlers[h := pc])
    case Abort(h) => w.(handlers := w.handlers - {h})
  }

  ghost function Run(w: World, ls: seq<Label>): World {
    if ls == [] then w else Step(Run(w, ls[..|ls| - 1]), ls[|ls| - 1])
  }

  /** Every label of the run is enabled when its turn comes. */
  ghost predicate Legal(w: World, ls: seq<Label>) {
    ls == [] || (Legal(w, ls[..|ls| - 1]) && Enabled(Run(w, ls[..|ls| - 1]), ls[|ls| - 1]))
  }

  lemma RunSnoc(w: World, ls: seq<Label>, l: Label)
    ensures Run(w, ls + [l]) == Step(Run(w, ls), l)
    ensures Legal(w, ls + [l]) <==> Legal(w, ls) && Enabled(Run(w, ls), l)
  {
    assert (ls + [l])[..|ls|] == ls;
  }

  lemma {:induction false} RunConcat(w: World, a: seq<Label>, b: seq<Label>)
    ensures Run(w, a + b) == Run(Run(w, a), b)
    ensures Legal(w, a + b) <==> Legal(w, a) && Legal(Run(w, a), b)
  {
    if b == [] {
      assert a + b == a;
    } else {
      RunConcat(w, a, b[..|b| - 1]);
      assert a + b == (a + b[..|b| - 1]) + [b[|b| - 1]];
      RunSnoc(w, a + b[..|b| - 1], b[|b| - 1]);
    }
  }

  /** The targets written out in the save and Back handlers agree with the state's own order. */
  lemma TargetsAgree(s: RegistrationState)
    ensures TargetAfter(s) == Next(s)
    ensures s != Completed ==> RawValue(TargetAfter(s)) == RawValue(s) + 10
    ensures CanGoBack(s) ==> TargetAfter(Prev(s)) == s
  {
  }

  // ---------------------------------------------------------------- what a handler may hold

  function AnswerColumns(s: RegistrationState): set<Column> {
    if s == WaitingPhrase then {PHRASE, STATE} else {AnswerColumn(s)}
  }

  /** The row object a program point holds, if it holds one. */
  function Held(pc: Pc): Option<Record> {
    match pc
    case WriteAnswer(rec, _) => Some(rec)
    case WritePrompt(rec, _) => Some(rec)
    case AnswerBack(rec) => Some(rec)
    case WriteBack(rec, _) => Some(rec)
    case ClearStale(rec) => Some(rec)
    case SendForm(rec) => Some(rec)
    case WriteMessageId(rec, _) => Some(rec)
    case SendFirstPrompt(rec) => Some(rec)
    case _ => None
  }

  /** The id of the row a program point is about to use, if any. */
  function Target(pc: Pc): Option<int> {
    if pc.FindPrompt? then Some(pc.rowId)
    else match Held(pc) case Some(rec) => Some(rec.row.id) case None => None
  }

  /** What the handlers' code guarantees about the row objects they hold, whatever the table says. */
  predicate Shape(pc: Pc) {
    match pc
    case FindMessage(text) => text != ""
    case FindAnswer(expected, text) => text != "" && expected != Completed
    case WriteAnswer(rec, s) =>
      && s != Completed && rec.dirty == AnswerColumns(s) && AnswerOf(rec.row, s) != ""
      && (s == WaitingPhrase ==> rec.row.state == RawValue(Completed))
    case WritePrompt(rec, target) => rec.dirty == {STATE} && rec.row.state == RawValue(target)
    case WriteBack(rec, target) =>
      && target != WaitingPhrase && target != Completed
      && rec.dirty == {STATE, AnswerColumn(target)}
      && rec.row.state == RawValue(target) && AnswerOf(rec.row, target) == ""
    case WriteMessageId(rec, _) => rec.dirty == {MESSAGE_ID}
    case AnswerBack(rec) => rec.dirty == {}
    case ClearStale(rec) => rec.dirty == {}
    case SendForm(rec) => rec.dirty == {}
    case SendFirstPrompt(rec) => rec.dirty == {}
    case Finished => false
    case _ => true
  }

  /** The row a handler uses exists and belongs to the handler's chat. */
  ghost predicate Owns(table: map<int, Row>, chat: int, pc: Pc) {
    Target(pc).Some? ==> Target(pc).value in table && table[Target(pc).value].chatId == chat
  }

  ghost predicate KeyedById(table: map<int, Row>) {
    forall id :: id in table ==> table[id].id == id
  }

  /** Holds in every interleaving, Back clicks and lost handlers included. */
  ghost predicate Sound(w: World) {
    && KeyedById(w.store.table)
    && forall h :: h in w.handlers ==> Shape(w.handlers[h]) && Owns(w.store.table, h.chat, w.handlers[h])
  }

  /** A table as left by an earlier process, before any handler runs. */
  ghost predicate Initial(w: World) {
    w.handlers == map[] && KeyedById(w.store.table)
  }

  /** No step changes a row's id or chat, and rows are never removed. */
  lemma RowsPersist(s: Store, chat: int, pc: Pc, reply: Reply)
    requires KeyedById(s.table) && Shape(pc) && Owns(s.table, chat, pc) && Possible(s, chat, pc, reply)
    ensures var t := Proceed(s, chat, pc, reply).0.table;
      && KeyedById(t)
      && forall id :: id in s.table ==> id in t && t[id].chatId == s.table[id].chatId
  {
  }

  predicate Reads(pc: Pc) {
    pc.FindMessage? || pc.FindAnswer? || pc.FindPrompt? || pc.FindBack? || pc.FindResume?
  }

  /** A row object built from a fresh read is well shaped, and its row is the chat's own. */
  lemma ShapeAfterRead(s: Store, chat: int, pc: Pc)
    requires KeyedById(s.table) && Shape(pc) && Reads(pc)
    ensures var (s', pc') := Proceed(s, chat, pc, Done);
      s' == s && (pc'.Finished? || (Shape(pc') && Owns(s.table, chat, pc')))
  {
  }

  /** So is one handed on by a step that reads nothing. */
  lemma ShapeAfterOther(s: Store, chat: int, pc: Pc, reply: Reply)
    requires KeyedById(s.table) && Shape(pc) && Owns(s.table, chat, pc) && Possible(s, chat, pc, reply)
    requires !Reads(pc)
    ensures var pc' := Proceed(s, chat, pc, reply).1; pc'.Finished? || Shape(pc')
  {
    hide Overlay;
    hide FormText;
    hide Owns;
  }

  lemma OwnsAfterOther(s: Store, chat: int, pc: Pc, reply: Reply)
    requires KeyedById(s.table) && Shape(pc) && Owns(s.table, chat, pc) && Possible(s, chat, pc, reply)
    requires !Reads(pc)
    ensures var (s', pc') := Proceed(s, chat, pc, reply); Owns(s'.table, chat, pc')
  {
    hide Overlay;
    hide FormText;
    hide Shape;
    RowsPersist(s, chat, pc, reply);
  }

  lemma SoundProceed(w: World, h: HandlerId, reply: Reply)
    requires Sound(w) && Enabled(w, Advance(h, reply))
    ensures Sound(Step(w, Advance(h, reply)))
  {
    var pc := w.handlers[h];
    RowsPersist(w.store, h.chat, pc, reply);
    if Reads(pc) {
      ShapeAfterRead(w.store, h.chat, pc);
    } else {
      ShapeAfterOther(w.store, h.chat, pc, reply);
      OwnsAfterOther(w.store, h.chat, pc, reply);
    }
    hide Proceed;
    hide Shape;
  }

  lemma SoundStep(w: World, l: Label)
    requires Sound(w) && Enabled(w, l)
    ensures Sound(Step(w, l))
  {
    if l.Advance? {
      SoundProceed(w, l.h, l.reply);
    }
  }

  lemma {:induction false} SoundRun(w: World, ls: seq<Label>)
    requires Sound(w) && Legal(w, ls)
    ensures Sound(Run(w, ls))
  {
    if ls != [] {
      SoundRun(w, ls[..|ls| - 1]);
      SoundStep(Run(w, ls[..|ls| - 1]), ls[|ls| - 1]);
    }
  }
}
