/**
 One update handled from start to end with nothing in between: what the workflow's methods compute
 on the shared store, and that each is an uninterrupted run of the step system.
 */
module Serial {
  import opened Common
  import opened FormStates
  import opened Records
  import opened Conversation

  /**
   An update for a chat, with the ids that Telegram and the database give while it is handled; `cleared`
   says whether Telegram lets a resume remove the keyboard of the form's old message.
   */
  datatype Event =
    | Said(chat: int, text: string, promptId: int, thanksId: int)
    | ClickedBack(chat: int, clicked: int, promptId: int)
    | Resumed(chat: int, formId: int, promptId: int, cleared: bool)
    | Wanted(chat: int, username: string, rowId: int, promptId: int)

  ghost predicate FreshMessage(s: Store, chat: int, id: int) {
    id > 0 && MessageKey(chat, id) !in s.screen
  }

  /** The ids are new, and the controller lets the update through. */
  ghost predicate Served(s: Store, e: Event) {
    && FreshMessage(s, e.chat, e.promptId)
    && match e
       case Said(chat, text, promptId, thanksId) =>
         text != "" && FreshMessage(s, chat, thanksId) && thanksId != promptId
       case ClickedBack(_, _, _) => true
       case Resumed(chat, formId, promptId, _) => FreshMessage(s, chat, formId) && formId != promptId
       case Wanted(_, _, rowId, _) => rowId !in s.table
  }

  /** `showFormPrompt`; the flag says whether it returned rather than failed to edit the form. */
  ghost function ShownForm(s: Store, chat: int, target: RegistrationState, promptId: int): (Store, bool) {
    match Find(s.table, chat)
    case None => (s, true)
    case Some(row) =>
      var rec := Load(row).SetState(RawValue(target));
      var s1 := s.(table := Update(s.table, rec));
      if MessageKey(chat, row.messageId) !in s.screen then (s1, false)
      else
        var s2 := Show(s1, chat, row.messageId, FormText(rec.row), CanGoBack(target));
        (Show(s2, chat, promptId, Prompt(target), false), true)
  }

  ghost function AfterSaid(s: Store, chat: int, text: string, promptId: int, thanksId: int): Store {
    match Find(s.table, chat)
    case None => s
    case Some(row) =>
      match GetState(row.state)
      case None => s
      case Some(state) =>
        if state == Completed then s
        else
          var s1 := s.(table := Update(s.table, Answered(row, state, text)));
          var (s2, returned) := ShownForm(s1, chat, TargetAfter(state), promptId);
          if returned && TargetAfter(state) == Completed then Show(s2, chat, thanksId, THANK_YOU, false) else s2
  }

  ghost function AfterBack(s: Store, chat: int, clicked: int, promptId: int): Store {
    match Find(s.table, chat)
    case None => s
    case Some(row) =>
      if clicked != row.messageId then s
      else
        match GetState(row.state)
        case None => s
        case Some(state) =>
          if !CanGoBack(state) then s
          else
            var to := Prev(state);
            ShownForm(s.(table := Update(s.table, SteppedBack(Load(row), to))), chat, to, promptId).0
  }

  ghost function AfterResume(s: Store, chat: int, formId: int, promptId: int, cleared: bool): Store {
    match Find(s.table, chat)
    case None => s
    case Some(row) =>
      match GetState(row.state)
      case None => s
      case Some(state) =>
        if state == Completed then Show(s, chat, promptId, THANK_YOU, false)
        else
          var s1 := if row.messageId != 0 && cleared then ClearKeyboard(s, chat, row.messageId) else s;
          var s2 := Show(s1, chat, formId, FormText(row), CanGoBack(state));
          var s3 := s2.(table := Update(s2.table, Load(row).SetMessageId(formId)));
          Show(s3, chat, promptId, Prompt(state), false)
  }

  function AfterWant(s: Store, chat: int, username: string, rowId: int, promptId: int): Store {
    var row := NewRow(rowId, chat, username);
    var s1 := s.(table := s.table[rowId := row]);
    var s2 := Show(s1, chat, promptId, Prompt(WaitingName), false);
    s2.(table := Update(s2.table, Load(row).SetMessageId(promptId)))
  }

  ghost function Serve(s: Store, e: Event): Store {
    match e
    case Said(chat, text, promptId, thanksId) => AfterSaid(s, chat, text, promptId, thanksId)
    case ClickedBack(chat, clicked, promptId) => AfterBack(s, chat, clicked, promptId)
    case Resumed(chat, formId, promptId, cleared) => AfterResume(s, chat, formId, promptId, cleared)
    case Wanted(chat, username, rowId, promptId) => AfterWant(s, chat, username, rowId, promptId)
  }

  // ---------------------------------------------------------------- runs of one handler

  function RequestOf(e: Event): Request {
    match e
    case Said(_, text, _, _) => Answer(text)
    case ClickedBack(_, clicked, _) => Back(clicked)
    case Resumed(_, _, _, _) => Resume
    case Wanted(_, username, _, _) => WantParticipate(username)
  }

  /**
   How the database and Telegram answer while `e` is served: with the event's ids, and no fault but on a
   missing message or a keyboard that may not be removed.
   */
  ghost function ReplyTo(e: Event, s: Store, pc: Pc): Reply {
    match pc
    case EditForm(_, messageId, _) => if MessageKey(e.chat, messageId) in s.screen then Done else Fault
    case SendPrompt(_) => Fresh(e.promptId)
    case SendThanks => Fresh(if e.Said? then e.thanksId else e.promptId)
    case ClearStale(_) => if e.Resumed? && !e.cleared then Fault else Done
    case SendForm(_) => if e.Resumed? then Fresh(e.formId) else Done
    case SendResumePrompt(_) => Fresh(e.promptId)
    case Insert(_) => if e.Wanted? then Fresh(e.rowId) else Done
    case SendFirstPrompt(_) => Fresh(e.promptId)
    case _ => Done
  }

  /** From `w`, handler `h` has been started for `e` and has so far run alone. */
  ghost predicate Underway(w: World, h: HandlerId, e: Event, ls: seq<Label>) {
    ls != [] &&
    var most, l := ls[..|ls| - 1], ls[|ls| - 1];
    if most == [] then l == Start(h, RequestOf(e))
    else
      && Underway(w, h, e, most) && h in Run(w, most).handlers
      && l == Advance(h, ReplyTo(e, Run(w, most).store, Run(w, most).handlers[h]))
  }

  /** Handler `h`, alone, has brought `w` to store `s` and point `pc`. */
  ghost predicate Reached(w: World, h: HandlerId, e: Event, ls: seq<Label>, s: Store, pc: Pc) {
    && h !in w.handlers && h.chat == e.chat
    && Legal(w, ls)
    && Underway(w, h, e, ls)
    && Run(w, ls) == if pc.Finished? then w.(store := s) else World(s, w.handlers[h := pc])
  }

  lemma Begun(w: World, h: HandlerId, e: Event) returns (ls: seq<Label>)
    requires h !in w.handlers && h.chat == e.chat && (e.Said? ==> e.text != "")
    ensures Reached(w, h, e, ls, w.store, Begin(RequestOf(e)))
  {
    ls := [Start(h, RequestOf(e))];
    RunSnoc(w, [], ls[0]);
    assert [] + ls == ls;
  }

  /** One more awaited operation of the handler. */
  lemma Go(w: World, h: HandlerId, e: Event, ls: seq<Label>, s: Store, pc: Pc, reply: Reply) returns (ls': seq<Label>)
    requires Reached(w, h, e, ls, s, pc) && !pc.Finished? && Possible(s, h.chat, pc, reply) && reply == ReplyTo(e, s, pc)
    ensures Reached(w, h, e, ls', Proceed(s, h.chat, pc, reply).0, Proceed(s, h.chat, pc, reply).1)
  {
    ls' := ls + [Advance(h, reply)];
    RunSnoc(w, ls, Advance(h, reply));
    assert ls'[..|ls|] == ls;
    assert World(s, w.handlers[h := pc]).handlers - {h} == w.handlers;
  }

  /** The prompt and, if it is reached, the edit of the form: `showFormPrompt` inside a handler. */
  lemma GoPrompt(w: World, h: HandlerId, e: Event, ls: seq<Label>, s: Store, rowId: int, target: RegistrationState)
    returns (ls': seq<Label>)
    requires Reached(w, h, e, ls, s, FindPrompt(rowId, target)) && FreshMessage(s, h.chat, e.promptId)
    ensures var (s', returned) := ShownForm(s, h.chat, target, e.promptId);
      Reached(w, h, e, ls', s', if returned then AfterPrompt(target) else Finished)
  {
    hide Reached;
    hide FormText;
    ls' := Go(w, h, e, ls, s, FindPrompt(rowId, target), Done);
    if Find(s.table, h.chat).Some? {
      var row := Find(s.table, h.chat).value;
      var rec := Load(row).SetState(RawValue(target));
      ls' := Go(w, h, e, ls', s, WritePrompt(rec, target), Done);
      var s1 := s.(table := Update(s.table, rec));
      var edit := EditForm(FormText(rec.row), row.messageId, target);
      if MessageKey(h.chat, row.messageId) !in s.screen {
        ls' := Go(w, h, e, ls', s1, edit, Fault);
      } else {
        ls' := Go(w, h, e, ls', s1, edit, Done);
        var s2 := Show(s1, h.chat, row.messageId, FormText(rec.row), CanGoBack(target));
        ls' := Go(w, h, e, ls', s2, SendPrompt(target), Fresh(e.promptId));
      }
    }
  }

  lemma SaidIsARun(w: World, h: HandlerId, e: Event) returns (ls: seq<Label>)
    requires h !in w.handlers && e.Said? && e.chat == h.chat && Served(w.store, e)
    ensures Reached(w, h, e, ls, Serve(w.store, e), Finished)
  {
    hide Reached;
    hide FormText;
    var s := w.store;
    ls := Begun(w, h, e);
    ls := Go(w, h, e, ls, s, FindMessage(e.text), Done);
    if Find(s.table, e.chat).Some? && GetState(Find(s.table, e.chat).value.state).Some? {
      var row := Find(s.table, e.chat).value;
      var state := GetState(row.state).value;
      if state != Completed {
        ls := Go(w, h, e, ls, s, FindAnswer(state, e.text), Done);
        var rec := Answered(row, state, e.text);
        ls := Go(w, h, e, ls, s, WriteAnswer(rec, state), Done);
        var s1 := s.(table := Update(s.table, rec));
        ls := GoPrompt(w, h, e, ls, s1, rec.row.id, TargetAfter(state));
        var (s2, returned) := ShownForm(s1, e.chat, TargetAfter(state), e.promptId);
        if returned && TargetAfter(state) == Completed {
          ThanksStillFresh(s1, e);
          ls := Go(w, h, e, ls, s2, SendThanks, Fresh(e.thanksId));
        }
      }
    }
  }

  lemma ThanksStillFresh(s: Store, e: Event)
    requires e.Said? && FreshMessage(s, e.chat, e.thanksId) && e.thanksId != e.promptId
    ensures FreshMessage(ShownForm(s, e.chat, Completed, e.promptId).0, e.chat, e.thanksId)
  {
  }

  lemma BackIsARun(w: World, h: HandlerId, e: Event) returns (ls: seq<Label>)
    requires h !in w.handlers && e.ClickedBack? && e.chat == h.chat && Served(w.store, e)
    ensures Reached(w, h, e, ls, Serve(w.store, e), Finished)
  {
    hide Reached;
    hide FormText;
    var s := w.store;
    ls := Begun(w, h, e);
    ls := Go(w, h, e, ls, s, FindBack(e.clicked), Done);
    if Find(s.table, e.chat).None? || Find(s.table, e.chat).value.messageId != e.clicked {
      ls := Go(w, h, e, ls, s, AnswerAndStop, Done);
    } else {
      var row := Find(s.table, e.chat).value;
      ls := Go(w, h, e, ls, s, AnswerBack(Load(row)), Done);
      if GetState(row.state).Some? && CanGoBack(GetState(row.state).value) {
        var to := Prev(GetState(row.state).value);
        var rec := SteppedBack(Load(row), to);
        ls := Go(w, h, e, ls, s, WriteBack(rec, to), Done);
        ls := GoPrompt(w, h, e, ls, s.(table := Update(s.table, rec)), rec.row.id, to);
      }
    }
  }

  /** Re-sending the form of an open registration: the last four awaited operations of a resume. */
  lemma Reshown(w: World, h: HandlerId, e: Event, ls: seq<Label>, s: Store, row: Row, state: RegistrationState)
    returns (ls': seq<Label>)
    requires Reached(w, h, e, ls, s, SendForm(Load(row))) && GetState(row.state) == Some(state)
    requires e.Resumed? && e.chat == h.chat && Served(s, e)
    ensures var s1 := Show(s, e.chat, e.formId, FormText(row), CanGoBack(state));
      var s2 := s1.(table := Update(s1.table, Load(row).SetMessageId(e.formId)));
      Reached(w, h, e, ls', Show(s2, e.chat, e.promptId, Prompt(state), false), Finished)
  {
    hide Reached;
    hide FormText;
    ls' := Go(w, h, e, ls, s, SendForm(Load(row)), Fresh(e.formId));
    var s1 := Show(s, e.chat, e.formId, FormText(row), CanGoBack(state));
    var rec := Load(row).SetMessageId(e.formId);
    ls' := Go(w, h, e, ls', s1, WriteMessageId(rec, Some(state)), Done);
    ls' := Go(w, h, e, ls', s1.(table := Update(s1.table, rec)), SendResumePrompt(state), Fresh(e.promptId));
  }

  lemma ResumeIsARun(w: World, h: HandlerId, e: Event) returns (ls: seq<Label>)
    requires h !in w.handlers && e.Resumed? && e.chat == h.chat && Served(w.store, e)
    ensures Reached(w, h, e, ls, Serve(w.store, e), Finished)
  {
    hide Reached;
    hide FormText;
    var s := w.store;
    ls := Begun(w, h, e);
    ls := Go(w, h, e, ls, s, FindResume, Done);
    if Find(s.table, e.chat).Some? && GetState(Find(s.table, e.chat).value.state).Some? {
      var row := Find(s.table, e.chat).value;
      var state := GetState(row.state).value;
      if state == Completed {
        ls := Go(w, h, e, ls, s, SendThanks, Fresh(e.promptId));
      } else if row.messageId != 0 {
        ls := Go(w, h, e, ls, s, ClearStale(Load(row)), if e.cleared then Done else Fault);
        ls := Reshown(w, h, e, ls, if e.cleared then ClearKeyboard(s, e.chat, row.messageId) else s, row, state);
      } else {
        ls := Reshown(w, h, e, ls, s, row, state);
      }
    }
  }

  lemma Greeted(w: World, h: HandlerId, e: Event) returns (ls: seq<Label>)
    requires h !in w.handlers && e.Wanted? && e.chat == h.chat
    ensures Reached(w, h, e, ls, w.store, Insert(e.username))
  {
    hide Reached;
    ls := Begun(w, h, e);
    ls := Go(w, h, e, ls, w.store, Greet(4, e.username), Done);
    ls := Go(w, h, e, ls, w.store, Greet(3, e.username), Done);
    ls := Go(w, h, e, ls, w.store, Greet(2, e.username), Done);
    ls := Go(w, h, e, ls, w.store, Greet(1, e.username), Done);
  }

  lemma WantIsARun(w: World, h: HandlerId, e: Event) returns (ls: seq<Label>)
    requires h !in w.handlers && e.Wanted? && e.chat == h.chat && Served(w.store, e)
    ensures Reached(w, h, e, ls, Serve(w.store, e), Finished)
  {
    hide Reached;
    var s := w.store;
    ls := Greeted(w, h, e);
    ls := Go(w, h, e, ls, s, Insert(e.username), Fresh(e.rowId));
    var row := NewRow(e.rowId, e.chat, e.username);
    var s1 := s.(table := s.table[e.rowId := row]);
    ls := Go(w, h, e, ls, s1, SendFirstPrompt(Load(row)), Fresh(e.promptId));
    var s2 := Show(s1, e.chat, e.promptId, Prompt(WaitingName), false);
    ls := Go(w, h, e, ls, s2, WriteMessageId(Load(row).SetMessageId(e.promptId), None), Done);
  }

  /** From `w`, handler `h` serves `e` alone, from its start to its end. */
  ghost predicate Turn(w: World, h: HandlerId, e: Event, ls: seq<Label>) {
    && h !in w.handlers && h.chat == e.chat && Legal(w, ls) && Underway(w, h, e, ls)
    && h !in Run(w, ls).handlers
  }

  /** Serving an update is a turn of one handler, whatever other handlers wait. */
  lemma ServingIsARun(w: World, h: HandlerId, e: Event) returns (ls: seq<Label>)
    requires h !in w.handlers && e.chat == h.chat && Served(w.store, e)
    ensures Turn(w, h, e, ls) && Run(w, ls) == w.(store := Serve(w.store, e))
    ensures forall l :: l in ls ==> l.h == h && !l.Abort?
  {
    match e {
      case Said(_, _, _, _) => ls := SaidIsARun(w, h, e);
      case ClickedBack(_, _, _) => ls := BackIsARun(w, h, e);
      case Resumed(_, _, _, _) => ls := ResumeIsARun(w, h, e);
      case Wanted(_, _, _, _) => ls := WantIsARun(w, h, e);
    }
    UnderwayAlone(w, h, e, ls);
  }

  lemma {:induction false} UnderwayAlone(w: World, h: HandlerId, e: Event, ls: seq<Label>)
    requires Underway(w, h, e, ls)
    ensures forall l :: l in ls ==> l.h == h && !l.Abort?
  {
    if |ls| > 1 {
      UnderwayAlone(w, h, e, ls[..|ls| - 1]);
    }
    assert ls == ls[..|ls| - 1] + [ls[|ls| - 1]];
  }

  lemma {:induction false} LegalPrefix(w: World, ls: seq<Label>, k: nat)
    requires Legal(w, ls) && k <= |ls|
    ensures Legal(w, ls[..k])
  {
    if k < |ls| {
      assert ls[..|ls| - 1][..k] == ls[..k];
      LegalPrefix(w, ls[..|ls| - 1], k);
    } else {
      assert ls[..k] == ls;
    }
  }

  /** A prefix of a run under way is itself under way, and stops short of the handler's end. */
  lemma {:induction false} UnderwayPrefix(w: World, h: HandlerId, e: Event, ls: seq<Label>, k: nat)
    requires Underway(w, h, e, ls) && 0 < k < |ls|
    ensures Underway(w, h, e, ls[..k]) && h in Run(w, ls[..k]).handlers
    ensures ls[k] == Advance(h, ReplyTo(e, Run(w, ls[..k]).store, Run(w, ls[..k]).handlers[h]))
  {
    var most := ls[..|ls| - 1];
    if k < |ls| - 1 {
      assert most[..k] == ls[..k] && most[k] == ls[k];
      UnderwayPrefix(w, h, e, most, k);
    } else {
      assert most == ls[..k];
    }
  }

  /** What a handler does for an update is determined: two runs under way agree as far as both go. */
  lemma {:induction false} UnderwayAgree(w: World, h: HandlerId, e: Event, a: seq<Label>, b: seq<Label>, k: nat)
    requires Underway(w, h, e, a) && Underway(w, h, e, b) && 0 < k <= |a| && k <= |b|
    ensures a[..k] == b[..k]
  {
    hide Underway;
    hide Run;
    hide ReplyTo;
    if k == 1 {
      UnderwayBegins(w, h, e, a);
      UnderwayBegins(w, h, e, b);
    } else {
      UnderwayAgree(w, h, e, a, b, k - 1);
      UnderwayPrefix(w, h, e, a, k - 1);
      UnderwayPrefix(w, h, e, b, k - 1);
      assert a[..k] == a[..k - 1] + [a[k - 1]] && b[..k] == b[..k - 1] + [b[k - 1]];
    }
  }

  lemma {:induction false} UnderwayBegins(w: World, h: HandlerId, e: Event, ls: seq<Label>)
    requires Underway(w, h, e, ls)
    ensures ls[0] == Start(h, RequestOf(e))
  {
    if |ls| > 1 {
      UnderwayBegins(w, h, e, ls[..|ls| - 1]);
    }
  }

  /** So every turn of a handler serves its update. */
  lemma TurnServes(w: World, h: HandlerId, e: Event, ls: seq<Label>)
    requires Served(w.store, e) && Turn(w, h, e, ls)
    ensures Run(w, ls) == w.(store := Serve(w.store, e))
  {
    var ms := ServingIsARun(w, h, e);
    hide Served;
    hide Serve;
    hide Run;
    hide Legal;
    hide Underway;
    var k := if |ls| < |ms| then |ls| else |ms|;
    UnderwayAgree(w, h, e, ls, ms, k);
    assert ls[..|ls|] == ls && ms[..|ms|] == ms;
    if k < |ms| {
      UnderwayPrefix(w, h, e, ms, k);
    } else if k < |ls| {
      UnderwayPrefix(w, h, e, ls, k);
    }
  }
}
