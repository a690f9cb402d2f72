/**
 What a chat sees agrees with what the table stores: the row's message shows the stored row and carries
 a Back button exactly when the state allows going back. The only other Back buttons are those of former
 form messages whose keyboard Telegram did not let a resume remove.
 */
module FormScreen {
  import opened FormStates
  import opened Records
  import opened Conversation
  import opened Serial
  import opened Isolation
  import opened FormStack

  /** The text the form's message must have: the row's form text, once the form has been shown. */
  function FormMessage(f: Form): string
    requires f.Open?
  {
    if f.shown then FormText(Encode(0, 0, f)) else Prompt(WaitingName)
  }

  /** Apart from the form's own message, exactly the stale ones carry a Back button. */
  ghost predicate OtherBacks(screen: map<MessageKey, Message>, chat: int, f: Form)
    requires f.Open?
  {
    && f.messageId !in f.stale
    && (forall id :: id in f.stale ==> MessageKey(chat, id) in screen)
    && (forall key :: key in screen && key.chat == chat && key.id != f.messageId ==> (screen[key].back <==> key.id in f.stale))
  }

  /** The chat's screen shows the form `f`; a chat with several rows is not considered. */
  ghost predicate Displays(screen: map<MessageKey, Message>, chat: int, f: Form) {
    match f
    case Absent => forall key :: key in screen && key.chat == chat ==> !screen[key].back
    case Open(_, answers, messageId, _, _) =>
      && |answers| <= 4
      && MessageKey(chat, messageId) in screen
      && screen[MessageKey(chat, messageId)] == Message(FormMessage(f), CanGoBack(StateAfter(|answers|)))
      && OtherBacks(screen, chat, f)
    case Frozen => true
  }

  /** The text depends on the answers alone. */
  lemma TextOfEncoded(id: int, chat: int, f: Form, row: Row)
    requires f.Open? && row.name == Encode(id, chat, f).name && row.company == Encode(id, chat, f).company
    requires row.companyPosition == Encode(id, chat, f).companyPosition && row.phrase == Encode(id, chat, f).phrase
    ensures FormText(row) == FormText(Encode(0, 0, f))
  {
  }

  /** `showFormPrompt` on a chat with one row and its form on screen. */
  lemma ShownDisplays(s: Store, chat: int, id: int, f: Form, promptId: int)
    requires KeyedById(s.table) && OnlyRow(s.table, chat, id) && f.Open? && f.shown && |f.answers| <= 4
    requires Overlay(s.table[id], Load(s.table[id]).SetState(10 * |f.answers|)) == Encode(id, chat, f)
    requires MessageKey(chat, f.messageId) in s.screen && OtherBacks(s.screen, chat, f)
    requires FreshMessage(s, chat, promptId)
    ensures ShownForm(s, chat, StateAfter(|f.answers|), promptId).1
    ensures Displays(ShownForm(s, chat, StateAfter(|f.answers|), promptId).0.screen, chat, f)
  {
    var row := Load(s.table[id]).SetState(10 * |f.answers|).row;
    TextOfEncoded(id, chat, f, row);
    hide FormText;
    hide Prompt;
  }

  /** Another message without a Back button changes nothing about the form. */
  lemma PlainMessageDisplays(s: Store, chat: int, id: int, text: string, f: Form)
    requires f.Open? && MessageKey(chat, id) !in s.screen && Displays(s.screen, chat, f)
    ensures Displays(Show(s, chat, id, text, false).screen, chat, f)
  {
    hide FormText;
    hide Prompt;
  }

  /** The store after an accepted answer has been written, before the form is shown. */
  ghost function Written(s: Store, e: Event, id: int, f: Form): Store
    requires e.Said? && AcceptsAnswer(f) && id in s.table
  {
    s.(table := Update(s.table, Answered(s.table[id], StateAfter(|f.answers|), e.text)))
  }

  /** `showFormPrompt` after an accepted answer returns, and shows the pushed form. */
  lemma AnswerShown(s: Store, e: Event, id: int, f: Form)
    requires KeyedById(s.table) && e.Said? && Served(s, e) && AcceptsAnswer(f) && Stands(s.table, e.chat, id, f)
    requires Displays(s.screen, e.chat, f)
    ensures var s1 := Written(s, e, id, f);
      var shown := ShownForm(s1, e.chat, TargetAfter(StateAfter(|f.answers|)), e.promptId);
      && OnlyRow(s1.table, e.chat, id) && shown.1 && Displays(shown.0.screen, e.chat, Apply(f, e))
  {
    hide FormText;
    hide Prompt;
    PushedRow(id, e.chat, f, e.text);
    var s1 := Written(s, e, id, f);
    assert OnlyRow(s1.table, e.chat, id);
    var f' := Apply(f, e);
    assert Encode(id, e.chat, f') == Encode(id, e.chat, f.(answers := f.answers + [e.text]));
    ShownDisplays(s1, e.chat, id, f', e.promptId);
    hide ShownForm;
  }

  /** What serving an accepted answer comes to: the form shown, and after the last one the thanks. */
  lemma SaidScreen(s: Store, e: Event, id: int, f: Form)
    requires KeyedById(s.table) && e.Said? && Served(s, e) && AcceptsAnswer(f) && Stands(s.table, e.chat, id, f)
    requires Displays(s.screen, e.chat, f)
    ensures var s1 := Written(s, e, id, f);
      var s2 := ShownForm(s1, e.chat, TargetAfter(StateAfter(|f.answers|)), e.promptId).0;
      Serve(s, e) == if |f.answers| == 3 then Show(s2, e.chat, e.thanksId, THANK_YOU, false) else s2
  {
    AnswerShown(s, e, id, f);
    EncodedState(id, e.chat, f);
    hide ShownForm;
    hide Displays;
    hide FormText;
    hide Prompt;
  }

  lemma SaidDisplays(s: Store, e: Event, id: int, f: Form)
    requires KeyedById(s.table) && e.Said? && Served(s, e) && AcceptsAnswer(f) && Stands(s.table, e.chat, id, f)
    requires Displays(s.screen, e.chat, f)
    ensures Displays(Serve(s, e).screen, e.chat, Apply(f, e))
  {
    SaidScreen(s, e, id, f);
    AnswerShown(s, e, id, f);
    var s1 := Written(s, e, id, f);
    ThanksUnseen(s1, e);
    hide ShownForm;
    hide Displays;
    hide Serve;
    var s2 := ShownForm(s1, e.chat, TargetAfter(StateAfter(|f.answers|)), e.promptId).0;
    PlainMessageDisplays(s2, e.chat, e.thanksId, THANK_YOU, Apply(f, e));
  }

  lemma ThanksUnseen(s: Store, e: Event)
    requires e.Said? && FreshMessage(s, e.chat, e.thanksId) && e.thanksId != e.promptId
    ensures forall target :: MessageKey(e.chat, e.thanksId) !in ShownForm(s, e.chat, target, e.promptId).0.screen
  {
    hide FormText;
    hide Prompt;
  }

  lemma BackDisplays(s: Store, e: Event, id: int, f: Form)
    requires KeyedById(s.table) && e.ClickedBack? && Served(s, e) && AcceptsBack(f, e.clicked) && Stands(s.table, e.chat, id, f)
    requires Displays(s.screen, e.chat, f)
    ensures Displays(Serve(s, e).screen, e.chat, Apply(f, e))
  {
    hide FormText;
    hide Prompt;
    EncodedState(id, e.chat, f);
    var to := Prev(StateAfter(|f.answers|));
    var s1 := s.(table := Update(s.table, SteppedBack(Load(s.table[id]), to)));
    assert OnlyRow(s1.table, e.chat, id);
    var f' := Apply(f, e);
    assert Overlay(s1.table[id], Load(s1.table[id]).SetState(10 * |f'.answers|)) == Encode(id, e.chat, f');
    ShownDisplays(s1, e.chat, id, f', e.promptId);
    hide ShownForm;
    hide Displays;
  }

  /** A resume: the old message loses its Back button, or is stale from now on. */
  lemma ResumeDisplays(s: Store, e: Event, id: int, f: Form)
    requires e.Resumed? && Served(s, e) && AcceptsAnswer(f) && Stands(s.table, e.chat, id, f)
    requires Displays(s.screen, e.chat, f)
    ensures Displays(Serve(s, e).screen, e.chat, Apply(f, e))
  {
    EncodedState(id, e.chat, f);
    TextOfEncoded(id, e.chat, f, s.table[id]);
    assert FormText(s.table[id]) == FormMessage(Apply(f, e));
    hide FormText;
    hide Prompt;
    hide FormMessage;
    assert f.answers == [] <==> !CanGoBack(StateAfter(|f.answers|));
  }

  lemma QuietDisplays(s: Store, e: Event, f: Form)
    requires Served(s, e) && Represents(s.table, e.chat, f) && Ignored(f, e)
    requires Displays(s.screen, e.chat, f)
    ensures Displays(Serve(s, e).screen, e.chat, f)
  {
    IgnoredLeavesTable(s, e, f);
    if e.Resumed? && f.Open? {
      var id :| Stands(s.table, e.chat, id, f);
      EncodedState(id, e.chat, f);
      PlainMessageDisplays(s, e.chat, e.promptId, THANK_YOU, f);
      hide Displays;
    }
  }

  lemma WantDisplays(s: Store, e: Event, f: Form)
    requires e.Wanted? && Served(s, e) && Displays(s.screen, e.chat, f)
    ensures Displays(Serve(s, e).screen, e.chat, Apply(f, e))
  {
    hide FormText;
    hide Prompt;
  }

  lemma OwnScreenFollows(s: Store, e: Event, f: Form)
    requires KeyedById(s.table) && Served(s, e) && Represents(s.table, e.chat, f) && Displays(s.screen, e.chat, f)
    ensures Displays(Serve(s, e).screen, e.chat, Apply(f, e))
  {
    hide Serve;
    hide Displays;
    hide Served;
    if e.Wanted? {
      WantDisplays(s, e, f);
    } else if Ignored(f, e) {
      QuietDisplays(s, e, f);
    } else {
      var id :| Stands(s.table, e.chat, id, f);
      match e {
        case Said(_, _, _, _) => SaidDisplays(s, e, id, f);
        case ClickedBack(_, _, _) => BackDisplays(s, e, id, f);
        case Resumed(_, _, _, _) => ResumeDisplays(s, e, id, f);
      }
    }
  }

  lemma DisplaysOfChat(s: Store, chat: int, f: Form)
    ensures Displays(s.screen, chat, f) <==> Displays(OfChat(s, chat).screen, chat, f)
  {
    hide FormText;
    hide Prompt;
    var part := OfChat(s, chat).screen;
    assert forall key :: key in s.screen && key.chat == chat <==> key in part;
    if f.Open? {
      assert forall id :: MessageKey(chat, id) in s.screen <==> MessageKey(chat, id) in part;
    }
  }

  /** Over whole histories of all chats, every chat's screen shows its form. */
  lemma {:induction false} ScreenAgreesWithTable(s: Store, es: seq<Event>, chat: int)
    requires s.table == map[] && Displays(s.screen, chat, Absent) && ServedAll(s, es)
    ensures Represents(ServeAll(s, es).table, chat, FormAfter(es, chat))
    ensures Displays(ServeAll(s, es).screen, chat, FormAfter(es, chat))
  {
    HistoryIsAStack(s, es, chat);
    hide Serve;
    if es != [] {
      var most, e := es[..|es| - 1], es[|es| - 1];
      var before := ServeAll(s, most);
      ScreenAgreesWithTable(s, most, chat);
      HistoryIsAStack(s, most, chat);
      if e.chat == chat {
        OwnScreenFollows(before, e, FormAfter(most, chat));
      } else {
        ServeIsolated(before, e, chat);
        DisplaysOfChat(before, chat, FormAfter(most, chat));
        DisplaysOfChat(ServeAll(s, es), chat, FormAfter(most, chat));
      }
    }
  }

  /**
   The same, read off the row: a message has a Back button if it is the row's message and the state
   allows it, or if it is a former form message that could not be edited, and in no other case.
   */
  lemma BackButtonFollowsRow(s: Store, es: seq<Event>, chat: int, id: int, key: MessageKey)
    requires s.table == map[] && Displays(s.screen, chat, Absent) && ServedAll(s, es)
    requires OnlyRow(ServeAll(s, es).table, chat, id) && key in ServeAll(s, es).screen && key.chat == chat
    ensures var row := ServeAll(s, es).table[id];
      var message := ServeAll(s, es).screen[key];
      && FormAfter(es, chat).Open? && GetState(row.state).Some? && row.messageId !in FormAfter(es, chat).stale
      && (message.back <==>
            (key.id == row.messageId && CanGoBack(GetState(row.state).value)) || key.id in FormAfter(es, chat).stale)
      && (key.id == row.messageId && FormAfter(es, chat).shown ==> message.text == FormText(row))
  {
    ScreenAgreesWithTable(s, es, chat);
    var table := ServeAll(s, es).table;
    var f := FormAfter(es, chat);
    if f.Frozen? {
      FrozenMisses(table, chat);
    } else {
      var k :| Stands(table, chat, k, f);
      EncodedState(k, chat, f);
      TextOfEncoded(k, chat, f, table[k]);
    }
  }

  /** Unless Telegram refuses to remove a keyboard, there never is a stale Back button. */
  lemma {:induction false} NoneStale(es: seq<Event>, chat: int)
    requires forall e :: e in es && e.Resumed? ==> e.cleared
    ensures FormAfter(es, chat).Open? ==> FormAfter(es, chat).stale == {}
  {
    if es != [] {
      var e := es[|es| - 1];
      assert e in es;
      NoneStale(es[..|es| - 1], chat);
    }
  }
}
