/**
 Safety of the form over whole runs: a row whose state is past an answer has that answer.
 The promise survives every interleaving of answers, resumes, new registrations and lost handlers.
 A Back click keeps it exactly when no other handler of the row still counts on the cleared answer.
 */
module FormSafety {
  import opened Common
  import opened FormStates
  import opened Records
  import opened Conversation

  /** The state a handler will write, or has just earned, without looking at the answers again. */
  function Claim(pc: Pc): int {
    match pc
    case WriteAnswer(_, answered) => RawValue(answered)
    case FindPrompt(_, target) => RawValue(target)
    case WritePrompt(_, target) => RawValue(target)
    case AnswerBack(rec) => PrevRaw(rec.row.state)
    case WriteBack(_, target) => RawValue(target)
    case _ => 0
  }

  /** The raw state a Back from raw state `raw` leads to; 0 when Back is refused. */
  function PrevRaw(raw: int): int {
    match GetState(raw)
    case None => 0
    case Some(s) => if CanGoBack(s) then RawValue(Prev(s)) else 0
  }

  /** At these points the handler has still to find its row by chat before it writes a state. */
  predicate LooksUp(pc: Pc) {
    pc.FindPrompt? || (pc.WriteAnswer? && pc.answered != WaitingPhrase)
  }

  /** A claim that rests on a lookup is dead once the chat has several rows: the lookup will miss. */
  ghost function LiveClaim(table: map<int, Row>, chat: int, pc: Pc): int {
    if LooksUp(pc) && !OnlyRow(table, chat, Target(pc).value) then 0 else Claim(pc)
  }

  ghost predicate ClaimHolds(table: map<int, Row>, chat: int, pc: Pc) {
    Target(pc).Some? && Target(pc).value in table ==> Filled(table[Target(pc).value], LiveClaim(table, chat, pc))
  }

  ghost predicate TableOk(table: map<int, Row>) {
    forall id :: id in table ==> FilledPrefix(table[id])
  }

  /** The inductive invariant: the stored rows, and what every in-flight handler counts on. */
  ghost predicate Honest(w: World) {
    && Sound(w)
    && TableOk(w.store.table)
    && forall h :: h in w.handlers ==> ClaimHolds(w.store.table, h.chat, w.handlers[h])
  }

  ghost predicate WritesBack(w: World, l: Label) {
    l.Advance? && l.h in w.handlers && w.handlers[l.h].WriteBack?
  }

  /** When a Back clears an answer, no other handler of that row counts on it. */
  ghost predicate BackSafe(w: World, l: Label) {
    WritesBack(w, l) ==>
      var pc := w.handlers[l.h];
      forall h :: h in w.handlers && h != l.h && Target(w.handlers[h]) == Some(pc.rec.row.id)
        ==> LiveClaim(w.store.table, h.chat, w.handlers[h]) <= RawValue(pc.target)
  }

  /** An update keeps each answer it does not clear. */
  predicate KeepsAnswers(rec: Record) {
    && (NAME in rec.dirty ==> rec.row.name != "")
    && (COMPANY in rec.dirty ==> rec.row.company != "")
    && (COMPANY_POSITION in rec.dirty ==> rec.row.companyPosition != "")
    && (PHRASE in rec.dirty ==> rec.row.phrase != "")
  }

  lemma FilledGrows(row: Row, rec: Record, upTo: int)
    requires KeepsAnswers(rec) && Filled(row, upTo)
    ensures Filled(Overlay(row, rec), upTo)
  {
  }

  /** The row a handler writes is again filled up to its new state; `live` says its claim is not dead. */
  lemma WrittenRow(row: Row, pc: Pc, live: bool)
    requires FilledPrefix(row) && Shape(pc) && Held(pc).Some?
    requires live || !LooksUp(pc) ==> Filled(row, Claim(pc))
    ensures !pc.AnswerBack? ==> FilledPrefix(Overlay(row, Held(pc).value))
    ensures pc.WriteAnswer? && live ==> Filled(Overlay(row, pc.rec), RawValue(TargetAfter(pc.answered)))
    ensures pc.WriteBack? ==> Filled(Overlay(row, pc.rec), RawValue(pc.target))
  {
  }

  /** A row that is a chat's only one afterwards was so before. */
  lemma OnlyRowBefore(s: Store, chat: int, pc: Pc, reply: Reply, of: int, id: int)
    requires KeyedById(s.table) && Shape(pc) && Owns(s.table, chat, pc) && Possible(s, chat, pc, reply)
    requires id in s.table
    ensures var t := Proceed(s, chat, pc, reply).0.table;
      && (OnlyRow(t, of, id) ==> OnlyRow(s.table, of, id))
      && (!pc.Insert? ==> (OnlyRow(t, of, id) <==> OnlyRow(s.table, of, id)))
  {
    hide FormText;
    RowsPersist(s, chat, pc, reply);
    var t := Proceed(s, chat, pc, reply).0.table;
    if !pc.Insert? {
      assert t.Keys == s.table.Keys;
    }
  }

  /** Own effect of a step on the table. */
  lemma OwnTable(s: Store, chat: int, pc: Pc, reply: Reply)
    requires KeyedById(s.table) && Shape(pc) && Owns(s.table, chat, pc) && Possible(s, chat, pc, reply)
    requires TableOk(s.table) && ClaimHolds(s.table, chat, pc)
    ensures TableOk(Proceed(s, chat, pc, reply).0.table)
  {
    hide FormText;
    if Held(pc).Some? {
      var id := Held(pc).value.row.id;
      WrittenRow(s.table[id], pc, OnlyRow(s.table, chat, id));
    }
  }

  /** What the handler counts on after a read: what the row it has just read has. */
  lemma ClaimAfterRead(s: Store, chat: int, pc: Pc, reply: Reply)
    requires KeyedById(s.table) && Shape(pc) && Owns(s.table, chat, pc) && Possible(s, chat, pc, reply) && Reads(pc)
    requires TableOk(s.table) && ClaimHolds(s.table, chat, pc)
    ensures var (s', pc') := Proceed(s, chat, pc, reply); ClaimHolds(s'.table, chat, pc')
  {
    hide FormText;
    hide Overlay;
  }

  /** After any other step: what the row has that it has just written. */
  lemma ClaimAfterOther(s: Store, chat: int, pc: Pc, reply: Reply)
    requires KeyedById(s.table) && Shape(pc) && Owns(s.table, chat, pc) && Possible(s, chat, pc, reply) && !Reads(pc)
    requires TableOk(s.table) && ClaimHolds(s.table, chat, pc)
    ensures var (s', pc') := Proceed(s, chat, pc, reply); ClaimHolds(s'.table, chat, pc')
  {
    hide FormText;
    if Held(pc).Some? {
      var id := Held(pc).value.row.id;
      WrittenRow(s.table[id], pc, OnlyRow(s.table, chat, id));
      OnlyRowBefore(s, chat, pc, reply, chat, id);
    }
    hide Overlay;
  }

  /** Own effect of a step: the table stays honest, and so does the handler's next program point. */
  lemma OwnStep(s: Store, chat: int, pc: Pc, reply: Reply)
    requires KeyedById(s.table) && Shape(pc) && Owns(s.table, chat, pc) && Possible(s, chat, pc, reply)
    requires TableOk(s.table) && ClaimHolds(s.table, chat, pc)
    ensures var (s', pc') := Proceed(s, chat, pc, reply); TableOk(s'.table) && ClaimHolds(s'.table, chat, pc')
  {
    OwnTable(s, chat, pc, reply);
    if Reads(pc) {
      ClaimAfterRead(s, chat, pc, reply);
    } else {
      ClaimAfterOther(s, chat, pc, reply);
    }
  }

  /** Effect on another handler's claim: only a Back can break one, and only a live one above its target. */
  lemma OtherClaim(s: Store, chat: int, pc: Pc, reply: Reply, other: Pc, otherChat: int)
    requires KeyedById(s.table) && Shape(pc) && Owns(s.table, chat, pc) && Possible(s, chat, pc, reply)
    requires Owns(s.table, otherChat, other) && ClaimHolds(s.table, otherChat, other)
    ensures ClaimHolds(Proceed(s, chat, pc, reply).0.table, otherChat, other)
      <==> (pc.WriteBack? && Target(other) == Some(pc.rec.row.id) ==> LiveClaim(s.table, otherChat, other) <= RawValue(pc.target))
  {
    if Target(other).Some? {
      var id := Target(other).value;
      OnlyRowBefore(s, chat, pc, reply, otherChat, id);
      OtherRow(s, chat, pc, reply, id, LiveClaim(s.table, otherChat, other));
      hide Proceed;
    }
  }

  /** A step keeps the answers below `upTo` that a row has, unless it is a Back below `upTo`. */
  lemma OtherRow(s: Store, chat: int, pc: Pc, reply: Reply, id: int, upTo: int)
    requires KeyedById(s.table) && Shape(pc) && Owns(s.table, chat, pc) && Possible(s, chat, pc, reply)
    requires id in s.table && Filled(s.table[id], upTo)
    ensures var t := Proceed(s, chat, pc, reply).0.table;
      id in t && (Filled(t[id], upTo) <==> (pc.WriteBack? && id == pc.rec.row.id ==> upTo <= RawValue(pc.target)))
  {
    hide FormText;
    var t := Proceed(s, chat, pc, reply).0.table;
    if pc.WriteBack? && id == pc.rec.row.id {
      assert t[id] == Overlay(s.table[id], pc.rec);
    } else if Held(pc).Some? && id == Held(pc).value.row.id && KeepsAnswers(Held(pc).value) {
      FilledGrows(s.table[id], Held(pc).value, upTo);
    }
  }

  /** One step keeps the invariant if and only if it is not a Back that breaks a live claim. */
  lemma HonestStep(w: World, l: Label)
    requires Honest(w) && Enabled(w, l)
    ensures Honest(Step(w, l)) <==> BackSafe(w, l)
  {
    SoundStep(w, l);
    if l.Advance? {
      var pc := w.handlers[l.h];
      var (s', pc') := Proceed(w.store, l.h.chat, pc, l.reply);
      OwnStep(w.store, l.h.chat, pc, l.reply);
      forall h | h in w.handlers && h != l.h
        ensures ClaimHolds(s'.table, h.chat, w.handlers[h])
          <==> (pc.WriteBack? && Target(w.handlers[h]) == Some(pc.rec.row.id)
                ==> LiveClaim(w.store.table, h.chat, w.handlers[h]) <= RawValue(pc.target))
      {
        OtherClaim(w.store, l.h.chat, pc, l.reply, w.handlers[h], h.chat);
      }
      hide Proceed;
      hide ClaimHolds;
      hide LiveClaim;
      var w' := Step(w, l);
      if !BackSafe(w, l) {
        var h :| h in w.handlers && h != l.h && Target(w.handlers[h]) == Some(pc.rec.row.id)
                 && LiveClaim(w.store.table, h.chat, w.handlers[h]) > RawValue(pc.target);
        assert w'.handlers[h] == w.handlers[h];
      } else {
        forall h | h in w'.handlers ensures ClaimHolds(w'.store.table, h.chat, w'.handlers[h]) {
          if h != l.h {
            assert w'.handlers[h] == w.handlers[h];
          }
        }
      }
    }
  }

  /** Every Back of the run is safe at the moment it writes. */
  ghost predicate AllBacksSafe(w: World, ls: seq<Label>) {
    ls == [] ||
    (AllBacksSafe(w, ls[..|ls| - 1]) && BackSafe(Run(w, ls[..|ls| - 1]), ls[|ls| - 1]))
  }

  lemma {:induction false} HonestRun(w: World, ls: seq<Label>)
    requires Initial(w) && TableOk(w.store.table) && Legal(w, ls) && AllBacksSafe(w, ls)
    ensures Honest(Run(w, ls))
  {
    if ls != [] {
      HonestRun(w, ls[..|ls| - 1]);
      HonestStep(Run(w, ls[..|ls| - 1]), ls[|ls| - 1]);
    }
  }

  // ---------------------------------------------------------------- two disciplines that suffice

  predicate IsBack(l: Label) {
    l.Start? && l.request.Back?
  }

  /** The program points that only a Back click leads to. */
  predicate OnBackPath(pc: Pc) {
    pc.FindBack? || pc.AnswerAndStop? || pc.AnswerBack? || pc.WriteBack?
  }

  lemma NoBackStep(w: World, l: Label)
    requires Enabled(w, l) && !IsBack(l) && forall h :: h in w.handlers ==> !OnBackPath(w.handlers[h])
    ensures forall h :: h in Step(w, l).handlers ==> !OnBackPath(Step(w, l).handlers[h])
  {
    hide FormText;
    hide Overlay;
  }

  lemma {:induction false} NoBackRun(w: World, ls: seq<Label>)
    requires Initial(w) && Legal(w, ls)
    requires forall l :: l in ls ==> !IsBack(l)
    ensures forall h :: h in Run(w, ls).handlers ==> !OnBackPath(Run(w, ls).handlers[h])
    ensures AllBacksSafe(w, ls)
  {
    hide Proceed;
    hide Step;
    if ls != [] {
      var last := ls[|ls| - 1];
      assert last in ls;
      NoBackRun(w, ls[..|ls| - 1]);
      NoBackStep(Run(w, ls[..|ls| - 1]), last);
    }
  }

  /** Any interleaving without Back clicks, handlers lost anywhere: a Completed row is fully answered. */
  lemma AnswersNeverMissing(w: World, ls: seq<Label>, id: int)
    requires Initial(w) && TableOk(w.store.table) && Legal(w, ls)
    requires forall l :: l in ls ==> !IsBack(l)
    requires id in Run(w, ls).store.table
    ensures var row := Run(w, ls).store.table[id];
      && FilledPrefix(row)
      && (row.state == RawValue(Completed) ==>
            row.name != "" && row.company != "" && row.companyPosition != "" && row.phrase != "")
  {
    NoBackRun(w, ls);
    HonestRun(w, ls);
  }

  /** At most one handler per chat is in flight; different chats still interleave freely. */
  ghost predicate OnePerChat(w: World) {
    forall h, g :: h in w.handlers && g in w.handlers && h.chat == g.chat ==> h == g
  }

  ghost predicate Serialized(w: World, ls: seq<Label>) {
    OnePerChat(Run(w, ls)) && (ls == [] || Serialized(w, ls[..|ls| - 1]))
  }

  lemma {:induction false} SerializedRun(w: World, ls: seq<Label>)
    requires Initial(w) && TableOk(w.store.table) && Legal(w, ls) && Serialized(w, ls)
    ensures AllBacksSafe(w, ls)
  {
    if ls != [] {
      var before := Run(w, ls[..|ls| - 1]);
      SerializedRun(w, ls[..|ls| - 1]);
      SoundRun(w, ls[..|ls| - 1]);
    }
  }

  /** Handlers of a chat one at a time, each free to die at any `co_await`, Back clicks included. */
  lemma SerializedPrefixFilled(w: World, ls: seq<Label>, id: int)
    requires Initial(w) && TableOk(w.store.table) && Legal(w, ls) && Serialized(w, ls)
    requires id in Run(w, ls).store.table
    ensures FilledPrefix(Run(w, ls).store.table[id])
  {
    SerializedRun(w, ls);
    HonestRun(w, ls);
  }

  // ---------------------------------------------------------------- with Back clicks at any time

  /** What is left of the promise when Back clicks interleave freely. */
  predicate LegalRow(row: Row) {
    GetState(row.state).Some? && (row.state == RawValue(Completed) ==> row.phrase != "")
  }

  ghost predicate LegalTable(table: map<int, Row>) {
    forall id :: id in table ==> LegalRow(table[id])
  }

  /** A handler about to store Completed knows that the phrase is there. */
  ghost predicate PhraseKnown(table: map<int, Row>, pc: Pc) {
    Claim(pc) == RawValue(Completed) && Target(pc).Some? && Target(pc).value in table ==>
      table[Target(pc).value].phrase != ""
  }

  ghost predicate AllLegal(w: World) {
    && Sound(w)
    && LegalTable(w.store.table)
    && forall h :: h in w.handlers ==> PhraseKnown(w.store.table, w.handlers[h])
  }

  lemma LegalUpdate(row: Row, pc: Pc)
    requires LegalRow(row) && Shape(pc) && Held(pc).Some?
    requires Claim(pc) == RawValue(Completed) ==> row.phrase != ""
    ensures LegalRow(Overlay(row, Held(pc).value))
    ensures row.phrase != "" ==> Overlay(row, Held(pc).value).phrase != ""
    ensures pc.WriteAnswer? && pc.answered == WaitingPhrase ==> Overlay(row, pc.rec).phrase != ""
  {
  }

  lemma LegalProceed(s: Store, chat: int, pc: Pc, reply: Reply)
    requires KeyedById(s.table) && Shape(pc) && Owns(s.table, chat, pc) && Possible(s, chat, pc, reply)
    requires LegalTable(s.table) && PhraseKnown(s.table, pc)
    ensures var (s', pc') := Proceed(s, chat, pc, reply); LegalTable(s'.table) && PhraseKnown(s'.table, pc')
    ensures forall id :: id in s.table && s.table[id].phrase != "" ==> Proceed(s, chat, pc, reply).0.table[id].phrase != ""
  {
    hide FormText;
    if Held(pc).Some? {
      LegalUpdate(s.table[Held(pc).value.row.id], pc);
    }
  }

  lemma LegalStep(w: World, l: Label)
    requires AllLegal(w) && Enabled(w, l)
    ensures AllLegal(Step(w, l))
  {
    SoundStep(w, l);
    if l.Advance? {
      LegalProceed(w.store, l.h.chat, w.handlers[l.h], l.reply);
    }
  }

  /** In every interleaving whatsoever, states stay legal and a Completed row has its phrase. */
  lemma {:induction false} StatesAlwaysLegal(w: World, ls: seq<Label>)
    requires Initial(w) && Legal(w, ls) && LegalTable(w.store.table)
    ensures AllLegal(Run(w, ls))
  {
    if ls != [] {
      StatesAlwaysLegal(w, ls[..|ls| - 1]);
      LegalStep(Run(w, ls[..|ls| - 1]), ls[|ls| - 1]);
    }
  }
}
