/**
 Two whole-run results about handlers that hold stale rows: chats do not influence one another, and
 an update never writes back a column its handler merely read.
 */
module Isolation {
  import opened Common
  import opened FormStates
  import opened Records
  import opened Conversation

  /** The part of the shared state that belongs to one chat. */
  ghost function OfChat(s: Store, chat: int): Store {
    Store(
      map id | id in s.table && s.table[id].chatId == chat :: s.table[id],
      map key | key in s.screen && key.chat == chat :: s.screen[key])
  }

  ghost function Only(w: World, chat: int): World {
    World(OfChat(w.store, chat), map h | h in w.handlers && h.chat == chat :: w.handlers[h])
  }

  /** The labels of one chat's handlers, in order. */
  function Project(ls: seq<Label>, chat: int): seq<Label> {
    if ls == [] then []
    else
      var rest := Project(ls[..|ls| - 1], chat);
      if ls[|ls| - 1].h.chat == chat then rest + [ls[|ls| - 1]] else rest
  }

  lemma FindIgnoresOthers(s: Store, chat: int)
    ensures Find(OfChat(s, chat).table, chat) == Find(s.table, chat)
  {
    forall id ensures OnlyRow(s.table, chat, id) <==> OnlyRow(OfChat(s, chat).table, chat, id) {
      if OnlyRow(OfChat(s, chat).table, chat, id) {
        forall j | j in s.table && s.table[j].chatId == chat ensures j == id {
          assert j in OfChat(s, chat).table;
        }
      }
    }
    if exists id :: OnlyRow(s.table, chat, id) {
      var id :| OnlyRow(s.table, chat, id);
      assert OnlyRow(OfChat(s, chat).table, chat, id);
    } else {
      assert !exists id :: OnlyRow(OfChat(s, chat).table, chat, id);
    }
  }

  /** An update of an own row commutes with forgetting the other chats. */
  lemma UpdateOwn(s: Store, chat: int, rec: Record)
    requires KeyedById(s.table) && rec.row.id in s.table && CHAT_ID !in rec.dirty
    ensures var s' := s.(table := Update(s.table, rec));
      if s.table[rec.row.id].chatId == chat
      then OfChat(s', chat) == OfChat(s, chat).(table := Update(OfChat(s, chat).table, rec))
      else OfChat(s', chat) == OfChat(s, chat)
  {
  }

  lemma ShowOwn(s: Store, chat: int, to: int, id: int, text: string, back: bool)
    ensures OfChat(Show(s, to, id, text, back), chat)
      == if to == chat then Show(OfChat(s, chat), to, id, text, back) else OfChat(s, chat)
    ensures OfChat(ClearKeyboard(s, to, id), chat)
      == if to == chat then ClearKeyboard(OfChat(s, chat), to, id) else OfChat(s, chat)
  {
  }

  /** A handler behaves the same whether or not the other chats are there. */
  lemma OwnChat(s: Store, chat: int, pc: Pc, reply: Reply)
    requires KeyedById(s.table) && Shape(pc) && Owns(s.table, chat, pc) && Possible(s, chat, pc, reply)
    ensures Possible(OfChat(s, chat), chat, pc, reply)
    ensures Proceed(OfChat(s, chat), chat, pc, reply)
      == (OfChat(Proceed(s, chat, pc, reply).0, chat), Proceed(s, chat, pc, reply).1)
  {
    FindIgnoresOthers(s, chat);
    if Held(pc).Some? {
      UpdateOwn(s, chat, Held(pc).value);
    }
    match pc
    case EditForm(form, messageId, target) => ShowOwn(s, chat, chat, messageId, form, CanGoBack(target));
    case SendPrompt(target) => if reply.Fresh? { ShowOwn(s, chat, chat, reply.id, Prompt(target), false); }
    case SendThanks => if reply.Fresh? { ShowOwn(s, chat, chat, reply.id, THANK_YOU, false); }
    case SendResumePrompt(state) => if reply.Fresh? { ShowOwn(s, chat, chat, reply.id, Prompt(state), false); }
    case SendFirstPrompt(_) => if reply.Fresh? { ShowOwn(s, chat, chat, reply.id, Prompt(WaitingName), false); }
    case ClearStale(rec) => ShowOwn(s, chat, chat, rec.row.messageId, "", false);
    case SendForm(rec) =>
      if reply.Fresh? && GetState(rec.row.state).Some? {
        ShowOwn(s, chat, chat, reply.id, FormText(rec.row), CanGoBack(GetState(rec.row.state).value));
      }
    case Insert(username) => InsertOwn(s, chat, chat, reply, username);
    case _ =>
  }

  lemma InsertOwn(s: Store, chat: int, to: int, reply: Reply, username: string)
    requires reply.Fresh? && reply.id !in s.table
    ensures var row := NewRow(reply.id, to, username);
      OfChat(s.(table := s.table[reply.id := row]), chat)
      == if to == chat then OfChat(s, chat).(table := OfChat(s, chat).table[reply.id := row]) else OfChat(s, chat)
  {
  }

  /** A handler of another chat leaves this chat's part alone. */
  lemma OtherChat(s: Store, chat: int, to: int, pc: Pc, reply: Reply)
    requires to != chat
    requires KeyedById(s.table) && Shape(pc) && Owns(s.table, to, pc) && Possible(s, to, pc, reply)
    ensures OfChat(Proceed(s, to, pc, reply).0, chat) == OfChat(s, chat)
  {
    if Held(pc).Some? {
      UpdateOwn(s, chat, Held(pc).value);
    }
    if pc.Insert? {
      InsertOwn(s, chat, to, reply, pc.username);
    }
  }

  lemma ChatStep(w: World, l: Label, chat: int)
    requires Sound(w) && Enabled(w, l)
    ensures l.h.chat == chat ==> Enabled(Only(w, chat), l) && Only(Step(w, l), chat) == Step(Only(w, chat), l)
    ensures l.h.chat != chat ==> Only(Step(w, l), chat) == Only(w, chat)
  {
    hide Proceed;
    hide Possible;
    if l.Advance? {
      var pc := w.handlers[l.h];
      if l.h.chat == chat {
        OwnChat(w.store, chat, pc, l.reply);
      } else {
        OtherChat(w.store, chat, l.h.chat, pc, l.reply);
      }
    }
  }

  /**
   Chats are isolated: in any interleaving, one chat's rows, screen and handlers are what running
   that chat's own steps alone gives.
   */
  lemma {:induction false} ChatsAreIsolated(w: World, ls: seq<Label>, chat: int)
    requires Initial(w) && Legal(w, ls)
    ensures Legal(Only(w, chat), Project(ls, chat))
    ensures Only(Run(w, ls), chat) == Run(Only(w, chat), Project(ls, chat))
  {
    if ls != [] {
      var most := ls[..|ls| - 1];
      var last := ls[|ls| - 1];
      ChatsAreIsolated(w, most, chat);
      SoundRun(w, most);
      ChatStep(Run(w, most), last, chat);
      RunSnoc(Only(w, chat), Project(most, chat), last);
    }
  }

  // ---------------------------------------------------------------- provenance of columns

  /** The columns the handler's code sets before the update at this program point. */
  function Sets(pc: Pc): set<Column> {
    match pc
    case WriteAnswer(_, answered) => AnswerColumns(answered)
    case WritePrompt(_, _) => {STATE}
    case WriteBack(_, target) => {STATE, AnswerColumn(target)}
    case WriteMessageId(_, _) => {MESSAGE_ID}
    case _ => {}
  }

  /** The value it sets column `c` to. */
  function Given(pc: Pc, c: Column): Cell {
    match pc
    case WriteAnswer(rec, answered) =>
      if c == STATE then Int(RawValue(Completed)) else Text(AnswerOf(rec.row, answered))
    case WritePrompt(_, target) => Int(RawValue(target))
    case WriteBack(_, target) => if c == STATE then Int(RawValue(target)) else Text("")
    case WriteMessageId(rec, _) => Int(rec.row.messageId)
    case _ => Null
  }

  /** What a new registration has in column `c`: its id, its chat, its name, and nothing answered yet. */
  function Inserted(id: int, chat: int, username: string, c: Column): Cell {
    match c
    case 0 => Int(id)
    case 1 => Int(chat)
    case 2 => Int(0)
    case 3 => Int(0)
    case 8 => Text(username)
    case _ => Text("")
  }

  /** The value column `c` of row `id` was last given: by an update that set it, or by the insert. */
  ghost function LastGiven(w: World, ls: seq<Label>, id: int, c: Column): Cell {
    if ls == [] then
      if id in w.store.table then w.store.table[id].Get(c) else Null
    else
      var before := Run(w, ls[..|ls| - 1]);
      var l := ls[|ls| - 1];
      if !l.Advance? || l.h !in before.handlers then LastGiven(w, ls[..|ls| - 1], id, c)
      else
        var pc := before.handlers[l.h];
        if pc.Insert? && l.reply == Fresh(id) then Inserted(id, l.h.chat, pc.username, c)
        else if Target(pc) == Some(id) && c in Sets(pc) then Given(pc, c)
        else LastGiven(w, ls[..|ls| - 1], id, c)
  }

  /** What one step does to one column. */
  lemma ColumnStep(s: Store, chat: int, pc: Pc, reply: Reply, id: int, c: Column)
    requires KeyedById(s.table) && Shape(pc) && Owns(s.table, chat, pc) && Possible(s, chat, pc, reply)
    requires id in s.table
    ensures var t := Proceed(s, chat, pc, reply).0.table;
      && id in t
      && t[id].Get(c) == if Target(pc) == Some(id) && c in Sets(pc) then Given(pc, c) else s.table[id].Get(c)
  {
    if Held(pc).Some? && Target(pc) == Some(id) {
      if c != ID { OverlaidColumn(s.table[id], Held(pc).value, c); }
      HeldValue(pc, c);
    }
  }

  /** Only an insert makes a row. */
  lemma NewColumn(s: Store, chat: int, pc: Pc, reply: Reply, id: int, c: Column)
    requires Possible(s, chat, pc, reply) && id !in s.table && id in Proceed(s, chat, pc, reply).0.table
    ensures pc.Insert? && reply == Fresh(id) && Proceed(s, chat, pc, reply).0.table[id].Get(c) == Inserted(id, chat, pc.username, c)
  {
  }

  lemma OverlaidColumn(row: Row, rec: Record, c: Column)
    requires c != ID
    ensures Overlay(row, rec).Get(c) == if c in rec.dirty then rec.row.Get(c) else row.Get(c)
  {
  }

  lemma HeldValue(pc: Pc, c: Column)
    requires Shape(pc) && Held(pc).Some?
    ensures Held(pc).value.dirty == Sets(pc)
    ensures c in Sets(pc) ==> Held(pc).value.row.Get(c) == Given(pc, c)
  {
  }

  /**
   No lost updates through stale rows: after any interleaving every column of every row holds what
   it was last explicitly given.
   */
  lemma {:induction false} ColumnsHoldLastGiven(w: World, ls: seq<Label>, id: int, c: Column)
    requires Initial(w) && Legal(w, ls)
    requires id in Run(w, ls).store.table
    ensures Run(w, ls).store.table[id].Get(c) == LastGiven(w, ls, id, c)
  {
    hide Proceed;
    hide Given;
    if ls != [] {
      var most := ls[..|ls| - 1];
      var l := ls[|ls| - 1];
      var before := Run(w, most);
      SoundRun(w, most);
      if id in before.store.table {
        ColumnsHoldLastGiven(w, most, id, c);
        if l.Advance? {
          ColumnStep(before.store, l.h.chat, before.handlers[l.h], l.reply, id, c);
        }
      } else if l.Advance? {
        NewColumn(before.store, l.h.chat, before.handlers[l.h], l.reply, id, c);
      }
    }
  }
}
