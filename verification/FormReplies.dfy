/**
 What a chat is told after each of its updates: every accepted one is answered by a message that asks
 for the answer the stored row now waits for, the last one by the thanks; all others are passed over in
 silence. What a message asks for is read off its words.
 */
module FormReplies {
  import opened Common
  import opened FormStates
  import opened Records
  import opened Conversation
  import opened Serial
  import opened Isolation
  import opened FormStack
  import opened FormScreen

  /** What a participant is asked for by a message. */
  function AskedFor(text: string): Option<RegistrationState> {
    if "Введите ваше имя" <= text then Some(WaitingName)
    else if "В какой компании" <= text then Some(WaitingCompanyName)
    else if "Чем вы занимаетесь" <= text then Some(WaitingCompanyPosition)
    else if "Введите affiliate" <= text then Some(WaitingPhrase)
    else if "Спасибо" <= text then Some(Completed)
    else None
  }

  predicate Thanks(text: string) {
    "Результаты будут размещены" <= text
  }

  /** Two texts that differ somewhere: neither begins with the other. */
  lemma Differ(text: string, start: string, k: nat)
    requires k < |text| && k < |start| && text[k] != start[k]
    ensures !(start <= text)
  {
  }

  lemma PromptAsks(s: RegistrationState)
    ensures AskedFor(Prompt(s)) == Some(s)
  {
    match s
    case WaitingName =>
      assert "Введите ваше имя" <= "Введите ваше имя";
    case WaitingCompanyName =>
      Differ(Prompt(s), "Введите ваше имя", 1);
      assert Prompt(s)[..16] == "В какой компании";
    case WaitingCompanyPosition =>
      Differ(Prompt(s), "Введите ваше имя", 0);
      Differ(Prompt(s), "В какой компании", 0);
      assert Prompt(s)[..18] == "Чем вы занимаетесь";
    case WaitingPhrase =>
      Differ(Prompt(s), "Введите ваше имя", 8);
      Differ(Prompt(s), "В какой компании", 1);
      Differ(Prompt(s), "Чем вы занимаетесь", 0);
      assert Prompt(s)[..17] == "Введите affiliate";
    case Completed =>
      Differ(Prompt(s), "Введите ваше имя", 0);
      Differ(Prompt(s), "В какой компании", 0);
      Differ(Prompt(s), "Чем вы занимаетесь", 0);
      Differ(Prompt(s), "Введите affiliate", 0);
      assert Prompt(s)[..7] == "Спасибо";
  }

  lemma BeginsLike(start: string, text: string, rest: string)
    requires start <= text
    ensures start <= text + rest
  {
  }

  lemma ThankYouThanks()
    ensures Thanks(THANK_YOU)
  {
    BeginsLike("Результаты будут размещены", THANK_YOU_BEGINS, THANK_YOU_GOES_ON);
    hide THANK_YOU_GOES_ON;
  }

  /** Message `id` of the chat asks for what state `s` waits for, and offers no Back. */
  ghost predicate Asks(screen: map<MessageKey, Message>, chat: int, id: int, s: RegistrationState) {
    var key := MessageKey(chat, id);
    key in screen && !screen[key].back && AskedFor(screen[key].text) == Some(s)
  }

  ghost predicate Thanked(screen: map<MessageKey, Message>, chat: int, id: int) {
    var key := MessageKey(chat, id);
    key in screen && !screen[key].back && Thanks(screen[key].text)
  }

  /** What the chat has been told when `e` has been served on the form `f`. */
  ghost predicate Replied(screen: map<MessageKey, Message>, e: Event, f: Form) {
    match e
    case Said(chat, _, promptId, thanksId) =>
      AcceptsAnswer(f) ==>
        && Asks(screen, chat, promptId, StateAfter(|f.answers| + 1))
        && (|f.answers| == 3 ==> Thanked(screen, chat, thanksId))
    case ClickedBack(chat, clicked, promptId) =>
      AcceptsBack(f, clicked) ==> Asks(screen, chat, promptId, StateAfter(|f.answers| - 1))
    case Resumed(chat, _, promptId, _) =>
      && (AcceptsAnswer(f) ==> Asks(screen, chat, promptId, StateAfter(|f.answers|)))
      && (f.Open? && |f.answers| == 4 ==> Thanked(screen, chat, promptId))
    case Wanted(chat, _, _, promptId) => Asks(screen, chat, promptId, WaitingName)
  }

  lemma ShownAsks(s: Store, chat: int, target: RegistrationState, promptId: int)
    requires Find(s.table, chat).Some? && ShownForm(s, chat, target, promptId).1
    ensures Asks(ShownForm(s, chat, target, promptId).0.screen, chat, promptId, target)
  {
    PromptAsks(target);
    hide Prompt;
    hide FormText;
    hide AskedFor;
  }

  lemma ThankedAfter(s: Store, chat: int, id: int)
    ensures Thanked(Show(s, chat, id, THANK_YOU, false).screen, chat, id)
  {
    ThankYouThanks();
    hide Thanks;
  }

  lemma AskedAfter(s: Store, chat: int, id: int, state: RegistrationState)
    ensures Asks(Show(s, chat, id, Prompt(state), false).screen, chat, id, state)
  {
    PromptAsks(state);
    hide Prompt;
    hide AskedFor;
  }

  lemma SaidReplies(s: Store, e: Event, id: int, f: Form)
    requires KeyedById(s.table) && e.Said? && Served(s, e) && AcceptsAnswer(f) && Stands(s.table, e.chat, id, f)
    requires Displays(s.screen, e.chat, f)
    ensures Replied(Serve(s, e).screen, e, f)
  {
    SaidScreen(s, e, id, f);
    AnswerShown(s, e, id, f);
    ThanksUnseen(Written(s, e, id, f), e);
    hide Displays;
    hide Serve;
    var s1, target := Written(s, e, id, f), TargetAfter(StateAfter(|f.answers|));
    ShownAsks(s1, e.chat, target, e.promptId);
    var s2 := ShownForm(s1, e.chat, target, e.promptId).0;
    ThankedAfter(s2, e.chat, e.thanksId);
    hide ShownForm;
    hide AskedFor;
    hide Thanks;
    hide Prompt;
    hide FormText;
  }

  lemma BackReplies(s: Store, e: Event, id: int, f: Form)
    requires KeyedById(s.table) && e.ClickedBack? && Served(s, e) && AcceptsBack(f, e.clicked) && Stands(s.table, e.chat, id, f)
    requires Displays(s.screen, e.chat, f)
    ensures Replied(Serve(s, e).screen, e, f)
  {
    hide FormText;
    hide Prompt;
    EncodedState(id, e.chat, f);
    var to := Prev(StateAfter(|f.answers|));
    var s1 := s.(table := Update(s.table, SteppedBack(Load(s.table[id]), to)));
    assert OnlyRow(s1.table, e.chat, id);
    var f' := Apply(f, e);
    assert Overlay(s1.table[id], Load(s1.table[id]).SetState(10 * |f'.answers|)) == Encode(id, e.chat, f');
    ShownDisplays(s1, e.chat, id, f', e.promptId);
    hide Displays;
    hide OtherBacks;
    ShownAsks(s1, e.chat, to, e.promptId);
    hide AskedFor;
    hide ShownForm;
  }

  lemma ResumeReplies(s: Store, e: Event, f: Form)
    requires e.Resumed? && Served(s, e) && Represents(s.table, e.chat, f)
    ensures Replied(Serve(s, e).screen, e, f)
  {
    hide FormText;
    hide Prompt;
    hide Asks;
    hide Thanked;
    if f.Open? {
      var id :| Stands(s.table, e.chat, id, f);
      var row, state := s.table[id], StateAfter(|f.answers|);
      EncodedState(id, e.chat, f);
      if |f.answers| == 4 {
        ThankedAfter(s, e.chat, e.promptId);
      } else {
        var s1 := if e.cleared then ClearKeyboard(s, e.chat, row.messageId) else s;
        var s2 := Show(s1, e.chat, e.formId, FormText(row), CanGoBack(state));
        var s3 := s2.(table := Update(s2.table, Load(row).SetMessageId(e.formId)));
        AskedAfter(s3, e.chat, e.promptId, state);
        assert Serve(s, e) == Show(s3, e.chat, e.promptId, Prompt(state), false);
      }
    }
  }

  lemma WantReplies(s: Store, e: Event, f: Form)
    requires e.Wanted? && Served(s, e)
    ensures Replied(Serve(s, e).screen, e, f)
  {
    PromptAsks(WaitingName);
    hide Prompt;
    hide AskedFor;
  }

  /** One update: what is accepted is answered, and nothing is said of the rest. */
  lemma UpdateReplies(s: Store, e: Event, f: Form)
    requires KeyedById(s.table) && Served(s, e) && Represents(s.table, e.chat, f) && Displays(s.screen, e.chat, f)
    ensures Replied(Serve(s, e).screen, e, f)
    ensures Ignored(f, e) && !(e.Resumed? && f.Open?) ==> Serve(s, e) == s
  {
    hide Serve;
    hide Displays;
    hide Served;
    if Ignored(f, e) {
      IgnoredLeavesTable(s, e, f);
    }
    match e {
      case Resumed(_, _, _, _) => ResumeReplies(s, e, f);
      case Wanted(_, _, _, _) => WantReplies(s, e, f);
      case _ =>
        if !Ignored(f, e) {
          var id :| Stands(s.table, e.chat, id, f);
          if e.Said? {
            SaidReplies(s, e, id, f);
          } else {
            BackReplies(s, e, id, f);
          }
        }
    }
  }

  /** Over whole histories: what the last update was answered. */
  lemma HistoryReplies(s: Store, es: seq<Event>, e: Event)
    requires s.table == map[] && Displays(s.screen, e.chat, Absent) && ServedAll(s, es + [e])
    ensures Replied(ServeAll(s, es + [e]).screen, e, FormAfter(es, e.chat))
    ensures Ignored(FormAfter(es, e.chat), e) && !(e.Resumed? && FormAfter(es, e.chat).Open?) ==>
      ServeAll(s, es + [e]) == ServeAll(s, es)
  {
    assert (es + [e])[..|es|] == es;
    ScreenAgreesWithTable(s, es, e.chat);
    HistoryIsAStack(s, es, e.chat);
    hide Serve;
    hide Displays;
    hide Replied;
    UpdateReplies(ServeAll(s, es), e, FormAfter(es, e.chat));
  }

  /** An accepted answer, Back or resume leaves a message that asks for just what the stored row waits for. */
  lemma PromptAsksForRow(s: Store, es: seq<Event>, e: Event, id: int)
    requires s.table == map[] && Displays(s.screen, e.chat, Absent) && ServedAll(s, es + [e])
    requires !Ignored(FormAfter(es, e.chat), e) && OnlyRow(ServeAll(s, es + [e]).table, e.chat, id)
    ensures var s' := ServeAll(s, es + [e]);
      GetState(s'.table[id].state).Some? && Asks(s'.screen, e.chat, e.promptId, GetState(s'.table[id].state).value)
  {
    HistoryReplies(s, es, e);
    HistoryIsAStack(s, es + [e], e.chat);
    assert (es + [e])[..|es|] == es;
    var f, f' := FormAfter(es, e.chat), FormAfter(es + [e], e.chat);
    assert f' == Apply(f, e);
    hide Serve;
    hide Asks;
    var table := ServeAll(s, es + [e]).table;
    if f'.Frozen? {
      FrozenMisses(table, e.chat);
    } else {
      var k :| Stands(table, e.chat, k, f');
      EncodedState(k, e.chat, f');
    }
  }
}
