/**
 What a Telegram failure does to a run: everywhere but at the removal of an old keyboard it ends the
 handler, which changes nothing any more; a resume goes on without the removal.
 */
module Faults {
  import opened FormStates
  import opened Records
  import opened Conversation
  import opened Serial
  import opened FormStack
  import opened FormScreen
  import opened FormReplies

  /** The one awaited call whose failure a handler survives. */
  ghost predicate Survives(w: World, h: HandlerId) {
    h in w.handlers && w.handlers[h].ClearStale?
  }

  lemma FaultStep(w: World, h: HandlerId)
    requires Enabled(w, Advance(h, Fault)) && !Survives(w, h)
    ensures Step(w, Advance(h, Fault)).store == w.store && h !in Step(w, Advance(h, Fault)).handlers
  {
    hide FormText;
  }

  /** A handler that is gone takes no step, unless an update starts another one under its name. */
  lemma {:induction false} GoneStaysGone(w: World, ls: seq<Label>, h: HandlerId)
    requires h !in w.handlers && Legal(w, ls)
    requires forall l :: l in ls && l.h == h ==> !l.Start?
    ensures h !in Run(w, ls).handlers && forall l :: l in ls ==> l.h != h
  {
    hide Proceed;
    hide Possible;
    if ls != [] {
      var most, last := ls[..|ls| - 1], ls[|ls| - 1];
      assert last in ls && forall l :: l in most ==> l in ls;
      GoneStaysGone(w, most, h);
      forall l | l in ls ensures l.h != h {
        assert l in most || l == last;
      }
    }
  }

  /**
   In every interleaving, a failed call other than that one changes neither table nor screen and is its
   handler's last step.
   */
  lemma FaultIsLast(w: World, ls: seq<Label>, k: nat, h: HandlerId)
    requires Legal(w, ls) && k < |ls| && ls[k] == Advance(h, Fault) && !Survives(Run(w, ls[..k]), h)
    requires forall l :: l in ls[k + 1..] && l.h == h ==> !l.Start?
    ensures Run(w, ls[..k + 1]).store == Run(w, ls[..k]).store
    ensures forall l :: l in ls[k + 1..] ==> l.h != h
  {
    hide Proceed;
    hide Possible;
    assert ls[..k + 1] == ls[..k] + [ls[k]];
    assert ls == ls[..k + 1] + ls[k + 1..];
    RunConcat(w, ls[..k + 1], ls[k + 1..]);
    RunSnoc(w, ls[..k], ls[k]);
    FaultStep(Run(w, ls[..k]), h);
    GoneStaysGone(Run(w, ls[..k + 1]), ls[k + 1..], h);
  }

  // ---------------------------------------------------------------- runs of one handler

  /** Handler `h` is started for `request` and runs alone, with whatever replies. */
  predicate Solo(ls: seq<Label>, h: HandlerId, request: Request) {
    && ls != [] && ls[0] == Start(h, request)
    && forall k :: 1 <= k < |ls| ==> ls[k].Advance? && ls[k].h == h
  }

  /** A failure that ends the handler ends its run. */
  lemma SoloEnds(w: World, ls: seq<Label>, k: nat, h: HandlerId, request: Request)
    requires h !in w.handlers && Legal(w, ls) && Solo(ls, h, request)
    requires 1 <= k < |ls| && ls[k] == Advance(h, Fault) && !Survives(Run(w, ls[..k]), h)
    ensures |ls| == k + 1 && Run(w, ls).store == Run(w, ls[..k]).store
  {
    assert |ls| == k + 1 ==> ls[..k + 1] == ls;
    assert |ls| > k + 1 ==> ls[k + 1] in ls[k + 1..];
    FaultIsLast(w, ls, k, h);
  }

  lemma RunNothing(w: World)
    ensures Run(w, []) == w
  {
  }

  lemma RunNext(w: World, ls: seq<Label>, k: nat)
    requires Legal(w, ls) && k < |ls|
    ensures Enabled(Run(w, ls[..k]), ls[k]) && Run(w, ls[..k + 1]) == Step(Run(w, ls[..k]), ls[k])
  {
    LegalPrefix(w, ls, k + 1);
    assert ls[..k + 1][..k] == ls[..k];
  }

  lemma GreetStep(w: World, h: HandlerId, reply: Reply)
    requires Enabled(w, Advance(h, reply)) && w.handlers[h].Greet? && w.handlers[h].calls > 1
    requires h in Step(w, Advance(h, reply)).handlers
    ensures Step(w, Advance(h, reply))
      == w.(handlers := w.handlers[h := Greet(w.handlers[h].calls - 1, w.handlers[h].username)])
  {
  }

  lemma {:induction false} Greeting(w: World, ls: seq<Label>, k: nat, h: HandlerId, username: string)
    requires h !in w.handlers && Legal(w, ls) && Solo(ls, h, WantParticipate(username)) && 1 <= k <= 4 && k < |ls|
    ensures Run(w, ls[..k]) == w.(handlers := w.handlers[h := Greet(5 - k, username)])
  {
    hide Proceed;
    hide Possible;
    hide Run;
    hide Legal;
    RunNext(w, ls, k - 1);
    RunNext(w, ls, k);
    if k == 1 {
      assert ls[..0] == [];
      RunNothing(w);
    } else {
      Greeting(w, ls, k - 1, h, username);
      var before := Run(w, ls[..k - 1]);
      GreetStep(before, h, ls[k - 1].reply);
      assert before.handlers[h := Greet(5 - k, username)] == w.handlers[h := Greet(5 - k, username)];
    }
  }

  /** A greeting that fails anywhere registers nobody and shows nothing. */
  lemma FaultedGreetingInsertsNothing(w: World, ls: seq<Label>, k: nat, h: HandlerId, username: string)
    requires h !in w.handlers && Legal(w, ls) && Solo(ls, h, WantParticipate(username))
    requires 1 <= k <= 4 && k < |ls| && ls[k] == Advance(h, Fault)
    ensures Run(w, ls).store == w.store && |ls| == k + 1
  {
    Greeting(w, ls, k, h, username);
    SoloEnds(w, ls, k, h, WantParticipate(username));
  }

  /** A Back whose callback cannot be answered clears nothing. */
  lemma FaultedCallbackClearsNothing(w: World, ls: seq<Label>, h: HandlerId, clicked: int)
    requires h !in w.handlers && Legal(w, ls) && Solo(ls, h, Back(clicked)) && |ls| > 2 && ls[2] == Advance(h, Fault)
    ensures Run(w, ls).store == w.store
  {
    assert ls[..0] == [];
    RunNext(w, ls, 0);
    RunNext(w, ls, 1);
    RunNext(w, ls, 2);
    SoloEnds(w, ls, 2, h, Back(clicked));
  }

  /** A resume waits, after its lookup, for the old keyboard to be removed. */
  lemma ResumeClears(w: World, h: HandlerId, e: Event, ls: seq<Label>, f: Form, id: int)
    requires e.Resumed? && Turn(w, h, e, ls) && AcceptsAnswer(f) && Stands(w.store.table, e.chat, id, f)
    ensures |ls| > 2 && Survives(Run(w, ls[..2]), h)
    ensures ls[2] == Advance(h, if e.cleared then Done else Fault)
  {
    hide FormText;
    EncodedState(id, e.chat, f);
    assert ls[..0] == [] && ls[..|ls|] == ls;
    UnderwayBegins(w, h, e, ls);
    RunNext(w, ls, 0);
    UnderwayPrefix(w, h, e, ls, 1);
    RunNext(w, ls, 1);
    UnderwayPrefix(w, h, e, ls, 2);
  }

  /**
   A resume whose old form message cannot be edited still stores and shows the new one and asks on; all
   that is left is the old message's Back button.
   */
  lemma FaultedClearStillResumes(w: World, h: HandlerId, e: Event, ls: seq<Label>, f: Form, id: int)
    requires e.Resumed? && !e.cleared && Served(w.store, e) && Turn(w, h, e, ls) && KeyedById(w.store.table)
    requires AcceptsAnswer(f) && Stands(w.store.table, e.chat, id, f) && Displays(w.store.screen, e.chat, f)
    ensures Advance(h, Fault) in ls
    ensures var s := Run(w, ls).store;
      var f' := f.(messageId := e.formId, shown := true, stale := f.stale + if f.answers == [] then {} else {f.messageId});
      && s.table == w.store.table[id := w.store.table[id].(messageId := e.formId)]
      && Displays(s.screen, e.chat, f')
      && Asks(s.screen, e.chat, e.promptId, StateAfter(|f.answers|))
  {
    ResumeClears(w, h, e, ls, f, id);
    TurnServes(w, h, e, ls);
    ResumeReshows(w.store, e, id, f);
    ResumeDisplays(w.store, e, id, f);
    ResumeReplies(w.store, e, f);
    hide Serve;
    hide Displays;
    hide Asks;
    hide Turn;
    assert ls[2] in ls;
    assert f.stale + {} == f.stale;
  }

  // ---------------------------------------------------------------- lost after the first write

  /** The row after a text has been taken in raw state 0, 10, 20 or 30; the phrase completes it at once. */
  function Taken(row: Row, text: string): Row {
    match row.state
    case 0 => row.(name := text)
    case 10 => row.(company := text)
    case 20 => row.(companyPosition := text)
    case 30 => row.(phrase := text, state := 40)
    case _ => row
  }

  /** The row after a step back from raw state 10, 20 or 30: the state and its answer go together. */
  function Returned(row: Row): Row {
    match row.state
    case 10 => row.(name := "", state := 0)
    case 20 => row.(company := "", state := 10)
    case 30 => row.(companyPosition := "", state := 20)
    case _ => row
  }

  /** A handler lost right after its first write has stored the answer, and the final state with the phrase. */
  lemma LostAfterAnswer(w: World, ls: seq<Label>, h: HandlerId, text: string, id: int)
    requires Sound(w) && h !in w.handlers && Legal(w, ls) && Solo(ls, h, Answer(text)) && |ls| == 4
    requires OnlyRow(w.store.table, h.chat, id) && w.store.table[id].state in {0, 10, 20, 30}
    ensures Run(w, ls).store == w.store.(table := w.store.table[id := Taken(w.store.table[id], text)])
  {
    hide FormText;
    hide Prompt;
    SoloSteps(w, ls, h, Answer(text));
    var s := w.store;
    var row := s.table[id];
    var state := GetState(row.state).value;
    assert Run(w, ls[..2]).handlers[h] == FindAnswer(state, text);
    assert Run(w, ls[..3]).handlers[h] == WriteAnswer(Answered(row, state, text), state);
    assert Overlay(row, Answered(row, state, text)) == Taken(row, text);
  }

  /** A Back lost right after its write has stored the earlier state together with the cleared answer. */
  lemma LostAfterBack(w: World, ls: seq<Label>, h: HandlerId, id: int)
    requires Sound(w) && h !in w.handlers && Legal(w, ls) && |ls| == 4
    requires OnlyRow(w.store.table, h.chat, id) && w.store.table[id].state in {10, 20, 30}
    requires Solo(ls, h, Back(w.store.table[id].messageId))
    ensures Run(w, ls).store == w.store.(table := w.store.table[id := Returned(w.store.table[id])])
  {
    hide FormText;
    hide Prompt;
    SoloSteps(w, ls, h, Back(w.store.table[id].messageId));
    var row := w.store.table[id];
    var state := GetState(row.state).value;
    assert Run(w, ls[..2]).handlers[h] == AnswerBack(Load(row));
    assert Run(w, ls[..3]).handlers[h] == WriteBack(SteppedBack(Load(row), Prev(state)), Prev(state));
    assert Overlay(row, SteppedBack(Load(row), Prev(state))) == Returned(row);
  }

  /** The first three steps of a run of one handler. */
  lemma SoloSteps(w: World, ls: seq<Label>, h: HandlerId, request: Request)
    requires h !in w.handlers && Legal(w, ls) && Solo(ls, h, request) && |ls| == 4
    ensures Run(w, ls[..1]) == w.(handlers := w.handlers[h := Begin(request)])
    ensures forall k :: 1 <= k < 4 ==>
      Enabled(Run(w, ls[..k]), ls[k]) && Run(w, ls[..k + 1]) == Step(Run(w, ls[..k]), ls[k])
    ensures Run(w, ls) == Step(Run(w, ls[..3]), ls[3])
  {
    hide Proceed;
    hide Possible;
    RunNothing(w);
    assert ls[..0] == [] && ls[..4] == ls;
    RunNext(w, ls, 0);
    forall k | 1 <= k < 4
      ensures Enabled(Run(w, ls[..k]), ls[k]) && Run(w, ls[..k + 1]) == Step(Run(w, ls[..k]), ls[k])
    {
      RunNext(w, ls, k);
    }
  }

  // ---------------------------------------------------------------- the thanks

  /** The handler has taken the phrase and has still to thank the chat. */
  predicate ThanksDue(pc: Pc) {
    match pc
    case WriteAnswer(_, answered) => answered == WaitingPhrase
    case FindPrompt(_, target) => target == Completed
    case WritePrompt(_, target) => target == Completed
    case EditForm(_, _, target) => target == Completed
    case SendPrompt(target) => target == Completed
    case SendThanks => true
    case _ => false
  }

  lemma DueStep(w: World, h: HandlerId, reply: Reply)
    requires Enabled(w, Advance(h, reply)) && ThanksDue(w.handlers[h]) && reply != Fault
    ensures var w' := Step(w, Advance(h, reply));
      if h in w'.handlers then ThanksDue(w'.handlers[h]) else reply.Fresh? && Thanked(w'.store.screen, h.chat, reply.id)
  {
    hide FormText;
    hide Prompt;
    hide Overlay;
    if reply.Fresh? {
      ThankedAfter(w.store, h.chat, reply.id);
    }
    hide Thanks;
  }

  lemma NotItsStep(w: World, l: Label, h: HandlerId)
    requires h in w.handlers && l.h != h
    ensures h in Step(w, l).handlers && Step(w, l).handlers[h] == w.handlers[h]
  {
    hide Proceed;
  }

  /**
   In every interleaving, a handler that has taken the phrase and ends without a failure thanks the chat
   as its last step, whether or not it still finds the row by then.
   */
  lemma {:induction false} ThanksComeLast(w: World, ls: seq<Label>, h: HandlerId) returns (k: nat, id: int)
    requires Legal(w, ls) && h in w.handlers && ThanksDue(w.handlers[h]) && h !in Run(w, ls).handlers
    requires Abort(h) !in ls && Advance(h, Fault) !in ls
    ensures k < |ls| && ls[k] == Advance(h, Fresh(id)) && Thanked(Run(w, ls[..k + 1]).store.screen, h.chat, id)
    decreases |ls|
  {
    hide Proceed;
    hide Possible;
    hide Thanked;
    var l := ls[0];
    assert ls[..0] == [] && ls == [l] + ls[1..];
    RunNext(w, ls, 0);
    RunConcat(w, [l], ls[1..]);
    assert ls[..1] == [l];
    var w' := Step(w, l);
    if l.h == h {
      DueStep(w, h, l.reply);
    } else {
      NotItsStep(w, l, h);
    }
    hide Step;
    hide ThanksDue;
    if h in w'.handlers {
      var j;
      j, id := ThanksComeLast(w', ls[1..], h);
      k := j + 1;
      assert ls[..k + 1] == [l] + ls[1..][..j + 1];
      LegalPrefix(w, ls, k + 1);
      RunConcat(w, [l], ls[1..][..j + 1]);
    } else {
      k, id := 0, l.reply.id;
    }
  }
}
