/**
 A chat's registration, served one update at a time, is a bounded stack of answers: a message
 pushes, an accepted Back pops, the fourth answer closes it. The stored row is exactly the stack, and
 the chat's screen shows exactly that row.
 */
module FormStack {
  import opened Common
  import opened FormStates
  import opened Records
  import opened Conversation
  import opened Serial
  import opened Isolation

  /**
   What a chat's registration amounts to: nothing yet, one open or complete form with the message that
   shows it, or several rows, which no handler can find any more. `username` is the name given when the
   form was opened; `stale` are former form messages whose Back button could not be removed.
   */
  datatype Form =
    | Absent
    | Open(username: string, answers: seq<string>, messageId: int, shown: bool, stale: set<int>)
    | Frozen

  /** The state reached after `n` answers. */
  function StateAfter(n: nat): RegistrationState
    requires n <= 4
  {
    match n
    case 0 => WaitingName
    case 1 => WaitingCompanyName
    case 2 => WaitingCompanyPosition
    case 3 => WaitingPhrase
    case _ => Completed
  }

  predicate AcceptsBack(f: Form, clicked: int) {
    f.Open? && clicked == f.messageId && 1 <= |f.answers| <= 3
  }

  predicate AcceptsAnswer(f: Form) {
    f.Open? && |f.answers| < 4
  }

  /** The abstract machine. */
  function Apply(f: Form, e: Event): Form {
    match e
    case Said(_, text, _, _) => if AcceptsAnswer(f) then f.(answers := f.answers + [text], shown := true) else f
    case ClickedBack(_, clicked, _) =>
      if AcceptsBack(f, clicked) then f.(answers := f.answers[..|f.answers| - 1], shown := true) else f
    case Resumed(_, formId, _, cleared) =>
      if AcceptsAnswer(f) then
        var stale := if cleared || f.answers == [] then f.stale else f.stale + {f.messageId};
        f.(messageId := formId, shown := true, stale := stale)
      else f
    case Wanted(_, username, _, promptId) => if f.Absent? then Open(username, [], promptId, false, {}) else Frozen
  }

  /** The `n`th answer of a stack, empty when not given. */
  function Answer(answers: seq<string>, n: nat): string {
    if n < |answers| then answers[n] else ""
  }

  /** The row that stands for an open form. */
  function Encode(id: int, chat: int, f: Form): Row
    requires f.Open?
  {
    Row(id, chat, 10 * |f.answers|, f.messageId, Answer(f.answers, 0), Answer(f.answers, 1), Answer(f.answers, 2),
      Answer(f.answers, 3), f.username)
  }

  predicate Answers(answers: seq<string>) {
    |answers| <= 4 && forall k :: 0 <= k < |answers| ==> answers[k] != ""
  }

  /** Row `id` is the chat's only one, and is the open form `f`. */
  ghost predicate Stands(table: map<int, Row>, chat: int, id: int, f: Form) {
    f.Open? && Answers(f.answers) && f.messageId > 0 && OnlyRow(table, chat, id) && table[id] == Encode(id, chat, f)
  }

  /** The rows of a chat stand for `f`. */
  ghost predicate Represents(table: map<int, Row>, chat: int, f: Form) {
    match f
    case Absent => forall id :: id in table ==> table[id].chatId != chat
    case Open(_, _, _, _, _) => exists id :: Stands(table, chat, id, f)
    case Frozen => exists id, j :: id in table && j in table && id != j && table[id].chatId == chat && table[j].chatId == chat
  }

  lemma EncodedState(id: int, chat: int, f: Form)
    requires f.Open? && Answers(f.answers)
    ensures GetState(Encode(id, chat, f).state) == Some(StateAfter(|f.answers|))
    ensures FilledPrefix(Encode(id, chat, f))
  {
  }

  lemma FrozenMisses(table: map<int, Row>, chat: int)
    requires Represents(table, chat, Frozen)
    ensures Find(table, chat) == None
  {
    var id, j :| id in table && j in table && id != j && table[id].chatId == chat && table[j].chatId == chat;
    forall k ensures !OnlyRow(table, chat, k) {
      assert k == id ==> k != j;
    }
  }

  // ---------------------------------------------------------------- what serving does to the row

  /** The two updates of an answer, on the row alone. */
  lemma PushedRow(id: int, chat: int, f: Form, text: string)
    requires f.Open? && Answers(f.answers) && |f.answers| < 4
    ensures var state := StateAfter(|f.answers|);
      var row := Encode(id, chat, f);
      var row1 := Overlay(row, Answered(row, state, text));
      Overlay(row1, Load(row1).SetState(RawValue(TargetAfter(state)))) == Encode(id, chat, f.(answers := f.answers + [text]))
  {
  }

  /** An accepted answer stores the pushed stack and nothing else. */
  lemma AnswerPushes(s: Store, e: Event, id: int, f: Form)
    requires e.Said? && Served(s, e) && AcceptsAnswer(f) && KeyedById(s.table) && Stands(s.table, e.chat, id, f)
    ensures Serve(s, e).table == s.table[id := Encode(id, e.chat, Apply(f, e))]
  {
    hide FormText;
    hide Prompt;
    var row := s.table[id];
    EncodedState(id, e.chat, f);
    PushedRow(id, e.chat, f, e.text);
    var state := StateAfter(|f.answers|);
    var s1 := s.(table := Update(s.table, Answered(row, state, e.text)));
    assert OnlyRow(s1.table, e.chat, id);
    ShownTable(s1, e.chat, TargetAfter(state), e.promptId, id);
  }

  /** `showFormPrompt` stores its state, whether or not the form can be edited. */
  lemma ShownTable(s: Store, chat: int, target: RegistrationState, promptId: int, id: int)
    requires KeyedById(s.table) && OnlyRow(s.table, chat, id)
    ensures ShownForm(s, chat, target, promptId).0.table
      == s.table[id := Overlay(s.table[id], Load(s.table[id]).SetState(RawValue(target)))]
  {
  }

  /** An accepted Back stores the popped stack and nothing else. */
  lemma BackPops(s: Store, e: Event, id: int, f: Form)
    requires e.ClickedBack? && Served(s, e) && AcceptsBack(f, e.clicked) && KeyedById(s.table) && Stands(s.table, e.chat, id, f)
    ensures Serve(s, e).table == s.table[id := Encode(id, e.chat, Apply(f, e))]
  {
    hide FormText;
    hide Prompt;
    var row := s.table[id];
    EncodedState(id, e.chat, f);
    var to := Prev(StateAfter(|f.answers|));
    var rec := SteppedBack(Load(row), to);
    var t1 := Update(s.table, rec);
    assert OnlyRow(t1, e.chat, id);
    var t2 := Update(t1, Load(t1[id]).SetState(RawValue(to)));
    assert t2[id] == Encode(id, e.chat, Apply(f, e));
    assert t2 == s.table[id := t2[id]];
  }

  /** A resume stores the form's new message and nothing else, whether or not the old one could be edited. */
  lemma ResumeReshows(s: Store, e: Event, id: int, f: Form)
    requires e.Resumed? && Served(s, e) && AcceptsAnswer(f) && KeyedById(s.table) && Stands(s.table, e.chat, id, f)
    ensures Serve(s, e).table == s.table[id := Encode(id, e.chat, Apply(f, e))]
  {
    hide FormText;
    hide Prompt;
    EncodedState(id, e.chat, f);
  }

  /** Updates that nothing comes of: the chat has no open form, or the form does not take them. */
  predicate Ignored(f: Form, e: Event) {
    match e
    case Said(_, _, _, _) => !AcceptsAnswer(f)
    case ClickedBack(_, clicked, _) => !AcceptsBack(f, clicked)
    case Resumed(_, _, _, _) => !AcceptsAnswer(f)
    case Wanted(_, _, _, _) => false
  }

  /** They leave the whole table alone, frozen chats included; only a resume of a complete form says anything. */
  lemma IgnoredLeavesTable(s: Store, e: Event, f: Form)
    requires Served(s, e) && Represents(s.table, e.chat, f) && Ignored(f, e)
    ensures Serve(s, e).table == s.table
    ensures !(e.Resumed? && f.Open?) ==> Serve(s, e) == s
  {
    match f
    case Absent => assert forall id :: !OnlyRow(s.table, e.chat, id);
    case Frozen => FrozenMisses(s.table, e.chat);
    case Open(_, _, _, _, _) =>
      var id :| Stands(s.table, e.chat, id, f);
      EncodedState(id, e.chat, f);
  }

  /** A new registration: the chat, its user name and the form's message; nothing answered. */
  lemma WantAdds(s: Store, e: Event)
    requires e.Wanted? && Served(s, e)
    ensures Serve(s, e).table == s.table[e.rowId := Row(e.rowId, e.chat, 0, e.promptId, "", "", "", "", e.username)]
  {
  }

  // ---------------------------------------------------------------- refinement

  lemma OneStack(table: map<int, Row>, chat: int, id: int, f: Form)
    requires Stands(table, chat, id, f)
    ensures Represents(table, chat, f)
  {
  }

  lemma OwnFormFollows(s: Store, e: Event, f: Form)
    requires KeyedById(s.table) && Served(s, e) && Represents(s.table, e.chat, f)
    ensures Represents(Serve(s, e).table, e.chat, Apply(f, e))
  {
    if e.Wanted? {
      WantFollows(s, e, f);
    } else if Ignored(f, e) {
      IgnoredLeavesTable(s, e, f);
    } else {
      var id :| Stands(s.table, e.chat, id, f);
      match e {
        case Said(_, _, _, _) => AnswerPushes(s, e, id, f);
        case ClickedBack(_, _, _) => BackPops(s, e, id, f);
        case Resumed(_, _, _, _) => ResumeReshows(s, e, id, f);
      }
      hide Serve;
      OneStack(Serve(s, e).table, e.chat, id, Apply(f, e));
    }
  }

  lemma WantFollows(s: Store, e: Event, f: Form)
    requires KeyedById(s.table) && e.Wanted? && Served(s, e) && Represents(s.table, e.chat, f)
    ensures Represents(Serve(s, e).table, e.chat, Apply(f, e))
  {
    WantAdds(s, e);
    hide Serve;
    var t := Serve(s, e).table;
    match f
    case Absent => OneStack(t, e.chat, e.rowId, Apply(f, e));
    case Open(_, _, _, _, _) =>
      var id :| Stands(s.table, e.chat, id, f);
      assert id in t && e.rowId in t && id != e.rowId;
    case Frozen =>
      var id, j :| id in s.table && j in s.table && id != j && s.table[id].chatId == e.chat && s.table[j].chatId == e.chat;
      assert id in t && j in t;
  }

  lemma OnlyRowOfChat(s: Store, chat: int, id: int)
    ensures OnlyRow(s.table, chat, id) <==> OnlyRow(OfChat(s, chat).table, chat, id)
  {
    var t := OfChat(s, chat).table;
    if OnlyRow(t, chat, id) {
      forall j | j in s.table && s.table[j].chatId == chat ensures j == id {
        assert j in t;
      }
    }
  }

  /** The form of a chat can be read off the chat's own rows. */
  lemma RepresentsOfChat(s: Store, chat: int, f: Form)
    ensures Represents(s.table, chat, f) <==> Represents(OfChat(s, chat).table, chat, f)
  {
    var t := OfChat(s, chat).table;
    match f
    case Absent => assert forall id :: id in s.table && s.table[id].chatId == chat <==> id in t;
    case Open(_, _, _, _, _) =>
      forall id ensures Stands(s.table, chat, id, f) <==> Stands(t, chat, id, f) {
        OnlyRowOfChat(s, chat, id);
      }
    case Frozen => assert forall id :: id in s.table && s.table[id].chatId == chat <==> id in t;
  }

  lemma {:induction false} NothingProjected(ls: seq<Label>, chat: int)
    requires forall l :: l in ls ==> l.h.chat != chat
    ensures Project(ls, chat) == []
  {
    if ls != [] {
      NothingProjected(ls[..|ls| - 1], chat);
    }
  }

  /** Serving one chat leaves every other chat's rows and screen alone. */
  lemma ServeIsolated(s: Store, e: Event, chat: int)
    requires KeyedById(s.table) && Served(s, e)
    ensures KeyedById(Serve(s, e).table)
    ensures chat != e.chat ==> OfChat(Serve(s, e), chat) == OfChat(s, chat)
  {
    var w := World(s, map[]);
    var ls := ServingIsARun(w, HandlerId(e.chat, 0), e);
    SoundRun(w, ls);
    ChatsAreIsolated(w, ls, chat);
    if chat != e.chat {
      NothingProjected(ls, chat);
      assert Run(Only(w, chat), []) == Only(w, chat);
    }
  }

  /** One update moves the form of its own chat as the abstract machine says, and no other chat's. */
  lemma FormFollows(s: Store, e: Event, chat: int, f: Form)
    requires KeyedById(s.table) && Served(s, e) && Represents(s.table, chat, f)
    ensures KeyedById(Serve(s, e).table)
    ensures Represents(Serve(s, e).table, chat, if e.chat == chat then Apply(f, e) else f)
  {
    ServeIsolated(s, e, chat);
    if e.chat == chat {
      OwnFormFollows(s, e, f);
    } else {
      RepresentsOfChat(s, chat, f);
      RepresentsOfChat(Serve(s, e), chat, f);
    }
  }

  ghost function ServeAll(s: Store, es: seq<Event>): Store {
    if es == [] then s else Serve(ServeAll(s, es[..|es| - 1]), es[|es| - 1])
  }

  ghost predicate ServedAll(s: Store, es: seq<Event>) {
    es == [] || (ServedAll(s, es[..|es| - 1]) && Served(ServeAll(s, es[..|es| - 1]), es[|es| - 1]))
  }

  /** The abstract machine over a chat's part of a history, from a chat without a row. */
  function FormAfter(es: seq<Event>, chat: int): Form {
    if es == [] then Absent
    else
      var f := FormAfter(es[..|es| - 1], chat);
      if es[|es| - 1].chat == chat then Apply(f, es[|es| - 1]) else f
  }

  /** Whole histories of all chats: every chat's rows are its stack. */
  lemma {:induction false} HistoryIsAStack(s: Store, es: seq<Event>, chat: int)
    requires s.table == map[] && ServedAll(s, es)
    ensures KeyedById(ServeAll(s, es).table)
    ensures Represents(ServeAll(s, es).table, chat, FormAfter(es, chat))
  {
    if es != [] {
      var most := es[..|es| - 1];
      HistoryIsAStack(s, most, chat);
      FormFollows(ServeAll(s, most), es[|es| - 1], chat, FormAfter(most, chat));
    }
  }

  /** The rows of a frozen chat: each stays as it is, and none is added but by another press of the button. */
  ghost predicate RowsKept(before: map<int, Row>, after: map<int, Row>, chat: int, wanted: bool) {
    && (forall id :: id in before && before[id].chatId == chat ==> id in after && after[id] == before[id])
    && (!wanted ==> forall id :: id in after && after[id].chatId == chat ==> id in before && before[id] == after[id])
  }

  lemma FrozenStep(s: Store, e: Event, chat: int)
    requires KeyedById(s.table) && Represents(s.table, chat, Frozen) && Served(s, e)
    ensures KeyedById(Serve(s, e).table) && Represents(Serve(s, e).table, chat, Frozen)
    ensures RowsKept(s.table, Serve(s, e).table, chat, e.Wanted? && e.chat == chat)
  {
    FormFollows(s, e, chat, Frozen);
    if e.chat == chat {
      if e.Wanted? {
        WantAdds(s, e);
      } else {
        IgnoredLeavesTable(s, e, Frozen);
      }
      hide Serve;
    } else {
      ServeIsolated(s, e, chat);
      hide Serve;
      var before, after := OfChat(s, chat).table, OfChat(Serve(s, e), chat).table;
      forall id | id in s.table && s.table[id].chatId == chat
        ensures id in Serve(s, e).table && Serve(s, e).table[id] == s.table[id]
      {
        assert id in before && id in after && before[id] == after[id];
      }
      forall id | id in Serve(s, e).table && Serve(s, e).table[id].chatId == chat
        ensures id in s.table && s.table[id] == Serve(s, e).table[id]
      {
        assert id in after && id in before && before[id] == after[id];
      }
    }
  }

  /** How often a chat has pressed the button. */
  function Wants(es: seq<Event>, chat: int): nat {
    if es == [] then 0
    else
      var e := es[|es| - 1];
      Wants(es[..|es| - 1], chat) + if e.Wanted? && e.chat == chat then 1 else 0
  }

  /**
   Once a chat has two rows, nothing any chat does changes one of its rows again; only another press of
   the button adds one.
   */
  lemma {:induction false} FrozenForever(s: Store, es: seq<Event>, chat: int)
    requires KeyedById(s.table) && Represents(s.table, chat, Frozen) && ServedAll(s, es)
    ensures KeyedById(ServeAll(s, es).table) && Represents(ServeAll(s, es).table, chat, Frozen)
    ensures RowsKept(s.table, ServeAll(s, es).table, chat, Wants(es, chat) > 0)
  {
    hide Serve;
    hide Represents;
    if es != [] {
      FrozenForever(s, es[..|es| - 1], chat);
      FrozenStep(ServeAll(s, es[..|es| - 1]), es[|es| - 1], chat);
    }
  }

  /** And it has two rows exactly from the second press on. */
  lemma {:induction false} FrozenFromSecondWant(es: seq<Event>, chat: int)
    ensures FormAfter(es, chat).Absent? <==> Wants(es, chat) == 0
    ensures FormAfter(es, chat).Frozen? <==> Wants(es, chat) >= 2
  {
    if es != [] {
      FrozenFromSecondWant(es[..|es| - 1], chat);
    }
  }

  /** Answers accepted minus Backs accepted over a chat's history. */
  function Balance(es: seq<Event>, chat: int): int {
    if es == [] then 0
    else
      var e := es[|es| - 1];
      var f := FormAfter(es[..|es| - 1], chat);
      Balance(es[..|es| - 1], chat)
      + if e.chat != chat then 0
        else if e.Said? && AcceptsAnswer(f) then 1
        else if e.ClickedBack? && AcceptsBack(f, e.clicked) then -1
        else 0
  }

  lemma {:induction false} BalanceIsDepth(es: seq<Event>, chat: int)
    ensures var f := FormAfter(es, chat);
      (f.Absent? ==> Balance(es, chat) == 0) && (f.Open? ==> Balance(es, chat) == |f.answers|)
  {
    if es != [] {
      BalanceIsDepth(es[..|es| - 1], chat);
    }
  }

  /** The stored state counts the accepted answers minus the accepted Backs, in tens. */
  lemma StateCountsAnswers(s: Store, es: seq<Event>, chat: int, id: int)
    requires s.table == map[] && ServedAll(s, es)
    requires OnlyRow(ServeAll(s, es).table, chat, id)
    ensures ServeAll(s, es).table[id].state == 10 * Balance(es, chat)
    ensures FilledPrefix(ServeAll(s, es).table[id])
  {
    HistoryIsAStack(s, es, chat);
    BalanceIsDepth(es, chat);
    var table := ServeAll(s, es).table;
    var f := FormAfter(es, chat);
    if f.Frozen? {
      FrozenMisses(table, chat);
    } else {
      var k :| Stands(table, chat, k, f);
      EncodedState(k, chat, f);
    }
  }

  /** The name of a chat's first press of the button. */
  function FirstName(es: seq<Event>, chat: int): string {
    if es == [] then ""
    else
      var e := es[|es| - 1];
      if e.Wanted? && e.chat == chat && Wants(es[..|es| - 1], chat) == 0 then e.username
      else FirstName(es[..|es| - 1], chat)
  }

  lemma {:induction false} NameOfForm(es: seq<Event>, chat: int)
    ensures FormAfter(es, chat).Open? ==> FormAfter(es, chat).username == FirstName(es, chat)
  {
    if es != [] {
      NameOfForm(es[..|es| - 1], chat);
      FrozenFromSecondWant(es[..|es| - 1], chat);
    }
  }

  /** Whatever happens later, a chat's only row keeps the user name given when it was made. */
  lemma NicknameStays(s: Store, es: seq<Event>, chat: int, id: int)
    requires s.table == map[] && ServedAll(s, es)
    requires OnlyRow(ServeAll(s, es).table, chat, id)
    ensures ServeAll(s, es).table[id].telegramNickname == FirstName(es, chat) && Wants(es, chat) == 1
  {
    HistoryIsAStack(s, es, chat);
    NameOfForm(es, chat);
    FrozenFromSecondWant(es, chat);
    var table := ServeAll(s, es).table;
    var f := FormAfter(es, chat);
    if f.Frozen? {
      FrozenMisses(table, chat);
    } else {
      var k :| Stands(table, chat, k, f);
    }
  }

  // ---------------------------------------------------------------- Back undoes an answer

  /** Before the phrase, answering and then clicking Back on the form restores the whole table. */
  lemma BackUndoesAnswer(s: Store, said: Event, back: Event, f: Form)
    requires KeyedById(s.table) && f.Open? && Represents(s.table, said.chat, f) && |f.answers| < 3
    requires said.Said? && back.ClickedBack? && back.chat == said.chat && back.clicked == f.messageId
    requires Served(s, said) && Served(Serve(s, said), back)
    ensures Serve(Serve(s, said), back).table == s.table
  {
    hide Serve;
    var id :| Stands(s.table, said.chat, id, f);
    AnswerPushes(s, said, id, f);
    var s1 := Serve(s, said);
    ServeIsolated(s, said, said.chat);
    assert Stands(s1.table, said.chat, id, Apply(f, said));
    BackPops(s1, back, id, Apply(f, said));
    assert Apply(f, said).answers[..|f.answers|] == f.answers;
  }

  /** Clicking Back and sending the cleared text again restores the whole table. */
  lemma AnswerUndoesBack(s: Store, back: Event, said: Event, f: Form)
    requires KeyedById(s.table) && Represents(s.table, back.chat, f)
    requires back.ClickedBack? && AcceptsBack(f, back.clicked)
    requires said.Said? && said.chat == back.chat && said.text == f.answers[|f.answers| - 1]
    requires Served(s, back) && Served(Serve(s, back), said)
    ensures Serve(Serve(s, back), said).table == s.table
  {
    hide Serve;
    var id :| Stands(s.table, back.chat, id, f);
    BackPops(s, back, id, f);
    var s1 := Serve(s, back);
    ServeIsolated(s, back, back.chat);
    assert Stands(s1.table, back.chat, id, Apply(f, back));
    AnswerPushes(s1, said, id, Apply(f, back));
    assert Apply(f, back).answers + [said.text] == f.answers;
  }
}
