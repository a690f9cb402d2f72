/**
 The stack and the screen, in interleaved runs: it is enough that each chat's own updates are served
 one after another. Handlers of other chats may run in between at every `co_await`.
 */
module InTurn {
  import opened Records
  import opened Conversation
  import opened Serial
  import opened Isolation
  import opened FormStack
  import opened FormScreen
  import opened FormReplies

  /** From label `k` on, the run is the turn of handler `h` for the last of `es`. */
  ghost predicate LastTurn(w: World, ls: seq<Label>, k: nat, h: HandlerId, es: seq<Event>)
    requires es != []
  {
    var e := es[|es| - 1];
    && k <= |ls|
    && Served(Run(w, ls[..k]).store, e)
    && Turn(Run(w, ls[..k]), h, e, ls[k..])
  }

  /** The run is one turn for each of `es`, in this order. */
  ghost predicate TakesTurns(w: World, ls: seq<Label>, es: seq<Event>)
    decreases |es|
  {
    if es == [] then ls == []
    else exists k: nat, h :: LastTurn(w, ls, k, h, es) && TakesTurns(w, ls[..k], es[..|es| - 1])
  }

  lemma {:induction false} TurnsServe(w: World, ls: seq<Label>, es: seq<Event>)
    requires TakesTurns(w, ls, es)
    ensures ServedAll(w.store, es) && Run(w, ls) == w.(store := ServeAll(w.store, es))
    decreases |es|
  {
    hide Turn;
    hide Served;
    hide Serve;
    if es != [] {
      var e := es[|es| - 1];
      var k: nat, h :| LastTurn(w, ls, k, h, es) && TakesTurns(w, ls[..k], es[..|es| - 1]);
      TurnsServe(w, ls[..k], es[..|es| - 1]);
      TurnServes(Run(w, ls[..k]), h, e, ls[k..]);
      RunConcat(w, ls[..k], ls[k..]);
      assert ls[..k] + ls[k..] == ls;
    }
  }

  /**
   In every interleaving in which a chat's own updates are served in turn, its rows are the stack of its
   updates and its screen shows them, whatever the other chats' handlers do.
   */
  lemma InterleavedHistory(w: World, ls: seq<Label>, chat: int, es: seq<Event>)
    requires Initial(w) && w.store.table == map[] && Displays(w.store.screen, chat, Absent) && Legal(w, ls)
    requires TakesTurns(Only(w, chat), Project(ls, chat), es)
    ensures Represents(Run(w, ls).store.table, chat, FormAfter(es, chat))
    ensures Displays(Run(w, ls).store.screen, chat, FormAfter(es, chat))
  {
    var own := OfChat(w.store, chat);
    ChatsAreIsolated(w, ls, chat);
    TurnsServe(Only(w, chat), Project(ls, chat), es);
    assert OfChat(Run(w, ls).store, chat) == ServeAll(own, es);
    DisplaysOfChat(w.store, chat, Absent);
    ScreenAgreesWithTable(own, es, chat);
    RepresentsOfChat(Run(w, ls).store, chat, FormAfter(es, chat));
    DisplaysOfChat(Run(w, ls).store, chat, FormAfter(es, chat));
  }

  lemma RepliedOfChat(s: Store, e: Event, f: Form)
    ensures Replied(s.screen, e, f) <==> Replied(OfChat(s, e.chat).screen, e, f)
  {
    hide AskedFor;
    hide Thanks;
    var part := OfChat(s, e.chat).screen;
    assert forall id :: MessageKey(e.chat, id) in s.screen <==> MessageKey(e.chat, id) in part;
  }

  /** And its last update has been answered as it would have been with nobody else around. */
  lemma InterleavedReply(w: World, ls: seq<Label>, es: seq<Event>, e: Event)
    requires Initial(w) && w.store.table == map[] && Displays(w.store.screen, e.chat, Absent) && Legal(w, ls)
    requires TakesTurns(Only(w, e.chat), Project(ls, e.chat), es + [e])
    ensures Replied(Run(w, ls).store.screen, e, FormAfter(es, e.chat))
  {
    var own := OfChat(w.store, e.chat);
    ChatsAreIsolated(w, ls, e.chat);
    TurnsServe(Only(w, e.chat), Project(ls, e.chat), es + [e]);
    assert OfChat(Run(w, ls).store, e.chat) == ServeAll(own, es + [e]);
    DisplaysOfChat(w.store, e.chat, Absent);
    HistoryReplies(own, es, e);
    RepliedOfChat(Run(w, ls).store, e, FormAfter(es, e.chat));
  }
}
