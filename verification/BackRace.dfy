/**
 The promise of FormSafety is false once a Back click interleaves with an answer: a concrete run
 that breaks it, and a proof that every Back outside the safety condition can break it.
 */
module BackRace {
  import opened Common
  import opened FormStates
  import opened Records
  import opened Conversation
  import opened FormSafety

  const RACE_ROW := Row(1, 7, 10, 5, "Ann", "", "", "", "ann")
  const ASK := HandlerId(7, 0)
  const CLICK := HandlerId(7, 1)

  function RaceWorld(): World {
    World(Store(map[1 := RACE_ROW], map[MessageKey(7, 5) := Message(FormText(RACE_ROW), true)]), map[])
  }

  /** The company is sent; before it is written, the chat clicks Back on the form. */
  function RaceLabel(k: nat): Label {
    match k
    case 0 => Start(ASK, Answer("Acme"))
    case 3 => Start(CLICK, Back(5))
    case 4 => Advance(CLICK, Done)
    case 5 => Advance(CLICK, Done)
    case 6 => Advance(CLICK, Done)
    case _ => Advance(ASK, Done)
  }

  function RaceLabels(): seq<Label> {
    seq(10, k requires 0 <= k => RaceLabel(k))
  }

  const CLEARED_ROW := RACE_ROW.(state := 0, name := "")
  const LATE_ROW := CLEARED_ROW.(company := "Acme")

  /** What the sending handler waits for after `k` labels. */
  function AskAt(k: nat): Pc {
    match k
    case 1 => FindMessage("Acme")
    case 2 => FindAnswer(WaitingCompanyName, "Acme")
    case 8 => FindPrompt(1, WaitingCompanyPosition)
    case 9 => WritePrompt(Load(LATE_ROW).SetState(20), WaitingCompanyPosition)
    case 10 => EditForm(FormText(LATE_ROW.(state := 20)), 5, WaitingCompanyPosition)
    case _ => WriteAnswer(Answered(RACE_ROW, WaitingCompanyName, "Acme"), WaitingCompanyName)
  }

  /** What the clicking handler waits for after `k` labels. */
  function ClickAt(k: nat): Pc {
    match k
    case 4 => FindBack(5)
    case 5 => AnswerBack(Load(RACE_ROW))
    case 6 => WriteBack(SteppedBack(Load(RACE_ROW), WaitingName), WaitingName)
    case _ => FindPrompt(1, WaitingName)
  }

  function RowAt(k: nat): Row {
    if k < 7 then RACE_ROW else if k < 8 then CLEARED_ROW else if k < 10 then LATE_ROW else LATE_ROW.(state := 20)
  }

  function RaceAt(k: nat): World {
    World(
      RaceWorld().store.(table := map[1 := RowAt(k)]),
      if k == 0 then map[] else if k < 4 then map[ASK := AskAt(k)] else map[ASK := AskAt(k), CLICK := ClickAt(k)])
  }

  lemma AskStep(k: nat)
    requires k == 1 || k == 2 || 7 <= k < 10
    ensures Possible(RaceAt(k).store, 7, AskAt(k), Done)
    ensures Proceed(RaceAt(k).store, 7, AskAt(k), Done) == (RaceAt(k + 1).store, AskAt(k + 1))
  {
    hide FormText;
    hide Prompt;
    assert OnlyRow(RaceAt(k).store.table, 7, 1);
    assert Proceed(RaceAt(k).store, 7, AskAt(k), Done).0.table == RaceAt(k + 1).store.table;
  }

  lemma ClickStep(k: nat)
    requires 4 <= k < 7
    ensures Possible(RaceAt(k).store, 7, ClickAt(k), Done)
    ensures Proceed(RaceAt(k).store, 7, ClickAt(k), Done) == (RaceAt(k + 1).store, ClickAt(k + 1))
  {
    assert OnlyRow(RaceAt(k).store.table, 7, 1);
    assert Proceed(RaceAt(k).store, 7, ClickAt(k), Done).0.table == RaceAt(k + 1).store.table;
  }

  lemma RaceStep(k: nat)
    requires k < 10
    ensures Enabled(RaceAt(k), RaceLabel(k)) && Step(RaceAt(k), RaceLabel(k)) == RaceAt(k + 1)
  {
    hide Proceed;
    hide Possible;
    if k == 1 || k == 2 || 7 <= k {
      AskStep(k);
    } else if 4 <= k {
      ClickStep(k);
    }
    assert Step(RaceAt(k), RaceLabel(k)).handlers == RaceAt(k + 1).handlers;
  }

  lemma {:induction false} RaceRuns(k: nat)
    requires k <= 10
    ensures Legal(RaceWorld(), RaceLabels()[..k]) && Run(RaceWorld(), RaceLabels()[..k]) == RaceAt(k)
  {
    hide Step;
    hide Enabled;
    if k > 0 {
      RaceRuns(k - 1);
      RaceStep(k - 1);
      assert RaceLabels()[..k] == RaceLabels()[..k - 1] + [RaceLabels()[k - 1]];
      RunSnoc(RaceWorld(), RaceLabels()[..k - 1], RaceLabels()[k - 1]);
    } else {
      assert RaceLabels()[..0] == [];
    }
  }

  /** The race ends in state 20 with the name missing. */
  lemma BackRaceLosesName()
    ensures Initial(RaceWorld()) && TableOk(RaceWorld().store.table) && Legal(RaceWorld(), RaceLabels())
    ensures 1 in Run(RaceWorld(), RaceLabels()).store.table
    ensures var row := Run(RaceWorld(), RaceLabels()).store.table[1];
      row.state == RawValue(WaitingCompanyPosition) && row.name == "" && !FilledPrefix(row)
  {
    RaceRuns(10);
    assert RaceLabels()[..10] == RaceLabels();
  }

  /** How many steps a handler may still take before it writes what it counts on. */
  function StepsToWrite(pc: Pc): nat {
    match pc
    case WriteAnswer(_, _) => 3
    case FindPrompt(_, _) => 2
    case AnswerBack(_) => 2
    case _ => 1
  }

  /** Handler `h` counts on `missing`, an answer its row `id` does not have. */
  ghost predicate Deluded(s: Store, chat: int, pc: Pc, id: int, missing: RegistrationState) {
    && KeyedById(s.table) && Shape(pc) && Owns(s.table, chat, pc)
    && Target(pc) == Some(id) && id in s.table && AnswerOf(s.table[id], missing) == ""
    && LiveClaim(s.table, chat, pc) > RawValue(missing)
  }

  /** Its next write stores a state past the missing answer, or it goes on counting on it. */
  lemma DeludedStep(s: Store, chat: int, pc: Pc, id: int, missing: RegistrationState)
    requires Deluded(s, chat, pc, id, missing)
    ensures Possible(s, chat, pc, Done)
    ensures var (s', pc') := Proceed(s, chat, pc, Done);
      && id in s'.table
      && (FilledPrefix(s'.table[id]) ==>
            !pc'.Finished? && Deluded(s', chat, pc', id, missing) && StepsToWrite(pc') < StepsToWrite(pc))
  {
    match pc {
      case WriteAnswer(_, _) => DeludedAnswer(s, chat, pc, id, missing);
      case FindPrompt(_, _) => DeludedLookup(s, chat, pc, id, missing);
      case AnswerBack(_) => DeludedBack(s, chat, pc, id, missing);
      case _ => DeludedWrite(s, chat, pc, id, missing);
    }
  }

  lemma DeludedAnswer(s: Store, chat: int, pc: Pc, id: int, missing: RegistrationState)
    requires Deluded(s, chat, pc, id, missing) && pc.WriteAnswer?
    ensures var (s', pc') := Proceed(s, chat, pc, Done);
      && id in s'.table
      && (FilledPrefix(s'.table[id]) ==>
            pc'.FindPrompt? && Deluded(s', chat, pc', id, missing))
  {
    hide FormText;
    var (s', pc') := Proceed(s, chat, pc, Done);
    if pc.answered != WaitingPhrase {
      assert OnlyRow(s'.table, chat, id);
    }
  }

  lemma DeludedLookup(s: Store, chat: int, pc: Pc, id: int, missing: RegistrationState)
    requires Deluded(s, chat, pc, id, missing) && pc.FindPrompt?
    ensures var (s', pc') := Proceed(s, chat, pc, Done);
      s' == s && pc'.WritePrompt? && Deluded(s', chat, pc', id, missing)
  {
    hide FormText;
    assert OnlyRow(s.table, chat, id);
  }

  lemma DeludedBack(s: Store, chat: int, pc: Pc, id: int, missing: RegistrationState)
    requires Deluded(s, chat, pc, id, missing) && pc.AnswerBack?
    ensures var (s', pc') := Proceed(s, chat, pc, Done);
      s' == s && pc'.WriteBack? && Deluded(s', chat, pc', id, missing)
  {
    hide FormText;
  }

  lemma DeludedWrite(s: Store, chat: int, pc: Pc, id: int, missing: RegistrationState)
    requires Deluded(s, chat, pc, id, missing) && !pc.WriteAnswer? && !pc.FindPrompt? && !pc.AnswerBack?
    ensures Possible(s, chat, pc, Done)
    ensures var t := Proceed(s, chat, pc, Done).0.table; id in t && !FilledPrefix(t[id])
  {
    hide FormText;
    assert pc.WritePrompt? || pc.WriteBack?;
  }

  /** A handler that counts on a missing answer goes on, alone, to store a state past it. */
  lemma {:induction false} BrokenClaimReachesRow(w: World, h: HandlerId, id: int, missing: RegistrationState)
    returns (ls: seq<Label>)
    requires Sound(w) && h in w.handlers && Deluded(w.store, h.chat, w.handlers[h], id, missing)
    ensures Legal(w, ls) && id in Run(w, ls).store.table && !FilledPrefix(Run(w, ls).store.table[id])
    ensures forall l :: l in ls ==> l == Advance(h, Done)
    decreases StepsToWrite(w.handlers[h])
  {
    var l := Advance(h, Done);
    DeludedStep(w.store, h.chat, w.handlers[h], id, missing);
    hide Proceed;
    hide Possible;
    hide Deluded;
    RunSnoc(w, [], l);
    assert [] + [l] == [l];
    SoundStep(w, l);
    var w' := Step(w, l);
    if !FilledPrefix(w'.store.table[id]) {
      ls := [l];
    } else {
      var rest := BrokenClaimReachesRow(w', h, id, missing);
      RunConcat(w, [l], rest);
      ls := [l] + rest;
    }
  }

  /** All labels of the run are steps of handler `h`. */
  predicate Alone(ls: seq<Label>, h: HandlerId) {
    forall l :: l in ls ==> l.Advance? && l.h == h
  }

  /**
   Every Back outside the safety condition can be followed by steps of one handler already in flight
   that store a state past a missing answer.
   */
  lemma UnsafeBackBreaksPrefix(w: World, l: Label) returns (h: HandlerId, ls: seq<Label>)
    requires Honest(w) && Enabled(w, l) && !BackSafe(w, l)
    ensures h in w.handlers && h != l.h && Alone(ls, h)
    ensures Legal(Step(w, l), ls) && !TableOk(Run(Step(w, l), ls).store.table)
  {
    var pc := w.handlers[l.h];
    var id := pc.rec.row.id;
    h :| h in w.handlers && h != l.h && Target(w.handlers[h]) == Some(id)
         && LiveClaim(w.store.table, h.chat, w.handlers[h]) > RawValue(pc.target);
    var w' := Step(w, l);
    SoundStep(w, l);
    OnlyRowBefore(w.store, l.h.chat, pc, l.reply, h.chat, id);
    assert w'.handlers[h] == w.handlers[h];
    assert w'.store.table[id] == Overlay(w.store.table[id], pc.rec);
    ls := BrokenClaimReachesRow(w', h, id, pc.target);
  }

  /** A handler whose claim holds keeps the table's promise as long as it runs alone. */
  lemma {:induction false} AloneKeepsTable(w: World, ls: seq<Label>, h: HandlerId)
    requires Sound(w) && TableOk(w.store.table) && Legal(w, ls) && Alone(ls, h)
    requires h in w.handlers ==> ClaimHolds(w.store.table, h.chat, w.handlers[h])
    ensures Sound(Run(w, ls)) && TableOk(Run(w, ls).store.table)
    ensures h in Run(w, ls).handlers ==> ClaimHolds(Run(w, ls).store.table, h.chat, Run(w, ls).handlers[h])
  {
    if ls != [] {
      var most, l := ls[..|ls| - 1], ls[|ls| - 1];
      assert l in ls;
      AloneKeepsTable(w, most, h);
      var before := Run(w, most);
      SoundStep(before, l);
      OwnStep(before.store, h.chat, before.handlers[h], l.reply);
      hide Proceed;
      hide ClaimHolds;
    }
  }

  /**
   The safety condition is exact: a Back is safe if and only if none of the other handlers in flight,
   going on alone, can store a state past a missing answer.
   */
  lemma BackSafetyIsExact(w: World, l: Label)
    requires Honest(w) && Enabled(w, l)
    ensures BackSafe(w, l) <==>
      forall h, ls :: h in w.handlers && h != l.h && Alone(ls, h) && Legal(Step(w, l), ls)
        ==> TableOk(Run(Step(w, l), ls).store.table)
  {
    if BackSafe(w, l) {
      HonestStep(w, l);
      forall h, ls | h in w.handlers && h != l.h && Alone(ls, h) && Legal(Step(w, l), ls)
        ensures TableOk(Run(Step(w, l), ls).store.table)
      {
        AloneKeepsTable(Step(w, l), ls, h);
      }
    } else {
      var h, ls := UnsafeBackBreaksPrefix(w, l);
    }
  }

  /** The handler writes the row by its id, without another lookup. */
  predicate WritesById(pc: Pc) {
    pc.WritePrompt? || pc.AnswerBack? || pc.WriteBack? || (pc.WriteAnswer? && pc.answered == WaitingPhrase)
  }

  /** The condition spelled out: what matters is a lookup that can still hit, or a write by id. */
  lemma UnsafeBackWitness(w: World, l: Label)
    requires Honest(w) && Enabled(w, l) && WritesBack(w, l)
    ensures var pc := w.handlers[l.h];
      var id := pc.rec.row.id;
      !BackSafe(w, l) <==>
        exists h :: h in w.handlers && h != l.h && Target(w.handlers[h]) == Some(id)
          && Claim(w.handlers[h]) > RawValue(pc.target)
          && (OnlyRow(w.store.table, l.h.chat, id) || WritesById(w.handlers[h]))
  {
    var pc := w.handlers[l.h];
    var id := pc.rec.row.id;
    forall h | h in w.handlers && Target(w.handlers[h]) == Some(id) && Claim(w.handlers[h]) > RawValue(pc.target)
      ensures LiveClaim(w.store.table, h.chat, w.handlers[h]) > RawValue(pc.target)
        <==> OnlyRow(w.store.table, l.h.chat, id) || WritesById(w.handlers[h])
    {
      assert h.chat == l.h.chat;
    }
  }
}
