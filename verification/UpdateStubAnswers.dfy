/** What each request of the stand-in server gets after any run, told from the events of the run alone. */
module UpdateStubAnswers {
  import opened Wrappers
  import opened UpdateStub

  /** How the program was started: its mode, its launch, and whether the updater's file is named and there. */
  datatype Launch = Launch(mode: Mode, launchNo: nat, named: bool, there: bool)

  function Begin(p: Launch): State {
    Start(p.mode, p.launchNo, p.named, p.there)
  }

  // ----- the history of a run -----

  /** An updater runs when the program starts. */
  predicate StartsUpdating(p: Launch) {
    match p.mode
    case UpdatingAlways => true
    case UpdatingFirst => p.launchNo == 1
    case ListedFirst => p.launchNo == 1
    case UpdaterFile => p.named && p.there
    case ListedUpdaterFile => p.named && p.there
    case ListedServe => p.named && p.there
    case Held => p.named && p.there
    case Notify => p.named && p.there
    case Normal => false
    case Q261 => false
  }

  /** The modes whose program looks for the updater's file, and those of them that serve once it is gone. */
  predicate Looks(p: Launch) {
    p.mode in {UpdaterFile, ListedUpdaterFile, ListedServe, Held, Notify}
  }

  predicate ServesAfter(p: Launch) {
    p.mode in {ListedServe, Held, Notify}
  }

  /** The updater was seen to be gone. */
  predicate Gone(es: seq<Event>) {
    Tick(false) in es
  }

  predicate Updates(p: Launch, es: seq<Event>) {
    StartsUpdating(p) && !(ServesAfter(p) && Gone(es))
  }

  predicate IsCall(e: Event) {
    e.Handle? && e.request.verb.ToolsCall?
  }

  predicate IsList(e: Event) {
    e.Handle? && e.request.verb.ToolsList?
  }

  predicate Called(es: seq<Event>) {
    exists e :: e in es && IsCall(e)
  }

  predicate KnownCalled(es: seq<Event>) {
    exists e :: e in es && IsCall(e) && e.request.verb.known
  }

  predicate ListAsked(es: seq<Event>) {
    exists e :: e in es && IsList(e)
  }

  /** A timer will end the conversation. */
  predicate Armed(p: Launch, es: seq<Event>) {
    || (StartsUpdating(p) && !Looks(p))
    || (p.mode == Q261 && p.launchNo == 1 && KnownCalled(es))
  }

  /** The event ends the conversation, if nothing ended it before. */
  predicate EndsIt(p: Launch, es: seq<Event>, e: Event) {
    || (e == TimerFires && Armed(p, es))
    || (e == Tick(false) && StartsUpdating(p) && Looks(p) && !ServesAfter(p))
  }

  /** Output is closed by the first event that ends the conversation, unless the input ended before it. */
  predicate Closed(p: Launch, es: seq<Event>) {
    es != [] &&
      var before, last := es[..|es| - 1], es[|es| - 1];
      Closed(p, before) || (EndsIt(p, before, last) && InputEnds !in before)
  }

  /** A later launch of the Q261 mode has had a call before any list. */
  predicate CalledFirst(es: seq<Event>) {
    es != [] &&
      var before, last := es[..|es| - 1], es[|es| - 1];
      CalledFirst(before) || (IsCall(last) && !Called(before) && !ListAsked(before))
  }

  /** What the program remembers is what its history says. */
  ghost predicate Knows(p: Launch, es: seq<Event>, s: State) {
    && s.mode == p.mode && s.launchNo == p.launchNo
    && s.updating == Updates(p, es)
    && s.watching == (StartsUpdating(p) && Looks(p) && !Gone(es))
    && s.endTimer == Armed(p, es)
    && s.listed == ListAsked(es)
    && s.refused == (p.mode == Q261 && p.launchNo > 1 && CalledFirst(es))
    && s.closed == Closed(p, es)
    && s.ending == (InputEnds in es || Closed(p, es))
    && (StartsUpdating(p) && Looks(p) && !ServesAfter(p) && Gone(es) ==> s.ending)
  }

  // ----- one event -----

  lemma OneMore(es: seq<Event>, e: Event)
    ensures (es + [e])[..|es + [e]| - 1] == es && (es + [e])[|es + [e]| - 1] == e
    ensures forall x :: x in es + [e] <==> x in es || x == e
    ensures Gone(es + [e]) <==> Gone(es) || e == Tick(false)
  {
  }

  lemma OneMoreAsked(es: seq<Event>, e: Event)
    ensures Called(es + [e]) <==> Called(es) || IsCall(e)
    ensures KnownCalled(es + [e]) <==> KnownCalled(es) || (IsCall(e) && e.request.verb.known)
    ensures ListAsked(es + [e]) <==> ListAsked(es) || IsList(e)
  {
    OneMore(es, e);
  }

  lemma OneMoreHistory(p: Launch, es: seq<Event>, e: Event)
    ensures Closed(p, es + [e]) <==> Closed(p, es) || (EndsIt(p, es, e) && InputEnds !in es)
    ensures CalledFirst(es + [e]) <==> CalledFirst(es) || (IsCall(e) && !Called(es) && !ListAsked(es))
  {
    OneMore(es, e);
  }

  /** A call that came first was followed by no other first one. */
  lemma {:induction false} FirstIsOnce(es: seq<Event>)
    ensures CalledFirst(es) ==> Called(es)
    ensures Called(es) ==> CalledFirst(es) || ListAsked(es)
    decreases |es|
  {
    if es != [] {
      var before, last := es[..|es| - 1], es[|es| - 1];
      assert es == before + [last];
      FirstIsOnce(before);
      OneMoreAsked(before, last);
    }
  }

  lemma SendingChangesNoFlag(s: State, frames: seq<Frame>)
    ensures Sent(s, frames) == s.(out := Sent(s, frames).out)
  {
  }

  lemma ArmsTheTimer(s: State, r: Request)
    ensures Remembered(s, r).endTimer
         == (s.endTimer || (r.verb == ToolsCall(true) && !s.updating && s.mode.Q261? && s.launchNo == 1))
  {
  }

  /** What remembering a request changes. */
  lemma RememberedFlags(s: State, r: Request)
    ensures var t := Next(s, Event.Handle(r));
      && t.mode == s.mode && t.launchNo == s.launchNo && t.updating == s.updating && t.watching == s.watching
      && t.closed == s.closed && t.ending == s.ending
      && t.listed == (s.listed || r.verb.ToolsList?)
      && t.refused == (s.refused || (r.verb.ToolsCall? && RefusesAsStale(s)))
      && t.endTimer == (s.endTimer || (r.verb == ToolsCall(true) && !s.updating && s.mode.Q261? && s.launchNo == 1))
  {
    RememberedKeeps(s, r);
    ArmsTheTimer(s, r);
    SendingChangesNoFlag(Remembered(s, r), Reply(s, r));
  }

  lemma KnowsRequest(p: Launch, es: seq<Event>, s: State, r: Request)
    requires Knows(p, es, s)
    ensures Knows(p, es + [Event.Handle(r)], Next(s, Event.Handle(r)))
  {
    OneMore(es, Event.Handle(r));
    OneMoreAsked(es, Event.Handle(r));
    OneMoreHistory(p, es, Event.Handle(r));
    FirstIsOnce(es);
    RememberedFlags(s, r);
  }

  lemma KnowsTick(p: Launch, es: seq<Event>, s: State, runs: bool)
    requires Knows(p, es, s)
    ensures Knows(p, es + [Tick(runs)], Next(s, Tick(runs)))
  {
    OneMore(es, Tick(runs));
    OneMoreAsked(es, Tick(runs));
    OneMoreHistory(p, es, Tick(runs));
  }

  lemma KnowsEnd(p: Launch, es: seq<Event>, s: State, e: Event)
    requires Knows(p, es, s) && (e.TimerFires? || e.InputEnds?)
    ensures Knows(p, es + [e], Next(s, e))
  {
    OneMore(es, e);
    OneMoreAsked(es, e);
    OneMoreHistory(p, es, e);
  }

  lemma KnowsNext(p: Launch, es: seq<Event>, s: State, e: Event)
    requires Knows(p, es, s)
    ensures Knows(p, es + [e], Next(s, e))
  {
    match e
    case Handle(r) => KnowsRequest(p, es, s, r);
    case Tick(runs) => KnowsTick(p, es, s, runs);
    case TimerFires => KnowsEnd(p, es, s, e);
    case InputEnds => KnowsEnd(p, es, s, e);
  }

  lemma {:induction false} KnowsRun(p: Launch, before: seq<Event>, s: State, es: seq<Event>)
    requires Knows(p, before, s)
    ensures Knows(p, before + es, Run(s, es))
    decreases |es|
  {
    if es == [] {
      assert before + [] == before;
    } else {
      KnowsNext(p, before, s, es[0]);
      KnowsRun(p, before + [es[0]], Next(s, es[0]), es[1..]);
      assert before + [es[0]] + es[1..] == before + es;
    }
  }

  lemma KnowsFromTheStart(p: Launch, es: seq<Event>)
    ensures Knows(p, es, Run(Begin(p), es))
  {
    assert Knows(p, [], Begin(p));
    KnowsRun(p, [], Begin(p), es);
    assert [] + es == es;
  }

  // ----- what a request gets -----

  /** What the next event of a run sends. */
  function Sends(p: Launch, es: seq<Event>, e: Event): seq<Frame> {
    var s, t := Run(Begin(p), es), Next(Run(Begin(p), es), e);
    if |s.out| <= |t.out| then t.out[|s.out|..] else []
  }

  lemma SendsIs(p: Launch, es: seq<Event>, e: Event, frames: seq<Frame>)
    requires Next(Run(Begin(p), es), e).out == Run(Begin(p), es).out + frames
    ensures Sends(p, es, e) == frames
  {
  }

  lemma SendsReply(p: Launch, es: seq<Event>, r: Request)
    ensures var s := Run(Begin(p), es);
      Sends(p, es, Event.Handle(r)) == if s.closed then [] else Reply(s, r)
  {
    var s := Run(Begin(p), es);
    RememberedKeeps(s, r);
    SendsIs(p, es, Event.Handle(r), if s.closed then [] else Reply(s, r));
  }

  /** A call, after any run: nothing once output is closed; the update's refusal while the updater runs; the
  notification and the stale refusal on a later launch's first call of the Q261 mode before any list; and
  otherwise its tool's result, or that the tool is unknown. */
  lemma CallIsAnswered(p: Launch, es: seq<Event>, id: Option<JsonId>, known: bool)
    ensures Sends(p, es, Event.Handle(Request(id, ToolsCall(known))))
         == if Closed(p, es) then []
            else if Updates(p, es) then [Response(id, UpdateRefused)]
            else if p.mode == Q261 && p.launchNo > 1 && !Called(es) && !ListAsked(es)
              then [ListChanged, Response(id, StaleRefused)]
            else if known then [Response(id, Served)]
            else [Response(id, UnknownTool)]
  {
    KnowsFromTheStart(p, es);
    SendsReply(p, es, Request(id, ToolsCall(known)));
    FirstIsOnce(es);
  }

  /** A list: held in the held mode while the updater runs; refused then in the modes that do not list
  before it is gone; and otherwise answered. */
  lemma ListIsAnswered(p: Launch, es: seq<Event>, id: Option<JsonId>)
    ensures Sends(p, es, Event.Handle(Request(id, ToolsList)))
         == if Closed(p, es) then []
            else if !Updates(p, es) || p.mode in {ListedFirst, ListedUpdaterFile, ListedServe}
              then [Response(id, Tools)]
            else if p.mode == Held then []
            else [Response(id, ListRefused)]
  {
    KnowsFromTheStart(p, es);
    SendsReply(p, es, Request(id, ToolsList));
  }

  /** The other requests, in every mode. */
  lemma OtherIsAnswered(p: Launch, es: seq<Event>, r: Request)
    requires !r.verb.ToolsCall? && !r.verb.ToolsList?
    ensures Sends(p, es, Event.Handle(r))
         == if Closed(p, es) || r.verb == Notification then []
            else if r.verb == Initialize then [Response(r.id, Initialized(Updates(p, es)))]
            else if r.verb == Ping then [Response(r.id, Pong)]
            else if r.id.Some? then [Response(r.id, MethodNotFound)]
            else []
  {
    KnowsFromTheStart(p, es);
    SendsReply(p, es, r);
  }

  /** No event but a request sends anything, except the first look that finds the updater gone: it answers
  the held lists in the held mode, and tells of the changed list in the notifying one. */
  lemma OnlyTheGoneUpdaterSends(p: Launch, es: seq<Event>, e: Event)
    requires !e.Handle?
    ensures Sends(p, es, e)
         == if e != Tick(false) || !StartsUpdating(p) || Gone(es) || Closed(p, es) then []
            else if p.mode == Held then Lists(Run(Begin(p), es).held)
            else if p.mode == Notify then [ListChanged]
            else []
  {
    var s := Run(Begin(p), es);
    KnowsFromTheStart(p, es);
    if e == Tick(false) && s.watching {
      WentKeeps(s);
      SendsIs(p, es, e, if s.closed then [] else WentSends(s));
    } else {
      SendsIs(p, es, e, []);
    }
  }

  // ----- the answers of a whole run -----

  /** The ids of the responses that carry one kind of answer. */
  function IdsOf(frames: seq<Frame>, body: Body): multiset<Option<JsonId>> {
    if frames == [] then multiset{}
    else
      var f := frames[0];
      (if f.Response? && f.body == body then multiset{f.id} else multiset{}) + IdsOf(frames[1..], body)
  }

  lemma {:induction false} IdsOfTwo(a: seq<Frame>, b: seq<Frame>, body: Body)
    ensures IdsOf(a + b, body) == IdsOf(a, body) + IdsOf(b, body)
    decreases |a|
  {
    if a == [] {
      assert a + b == b;
    } else {
      assert (a + b)[1..] == a[1..] + b;
      IdsOfTwo(a[1..], b, body);
    }
  }

  lemma IdsOfOne(f: Frame, body: Body)
    ensures IdsOf([f], body) == if f.Response? && f.body == body then multiset{f.id} else multiset{}
  {
    assert [f][1..] == [];
  }

  lemma {:induction false} IdsOfLists(ids: seq<Option<JsonId>>, body: Body)
    ensures IdsOf(Lists(ids), body) == if body == Tools then multiset(ids) else multiset{}
    decreases |ids|
  {
    if ids != [] {
      var first := [Response(ids[0], Tools)];
      assert Lists(ids) == first + Lists(ids[1..]);
      IdsOfTwo(first, Lists(ids[1..]), body);
      IdsOfOne(first[0], body);
      IdsOfLists(ids[1..], body);
      assert ids == [ids[0]] + ids[1..];
    }
  }

  predicate IsFirstOfALaterLaunch(p: Launch, es: seq<Event>) {
    p.mode == Q261 && p.launchNo > 1 && !Called(es) && !ListAsked(es)
  }

  /** The kind of answer a request gets at once. */
  predicate Earns(p: Launch, es: seq<Event>, r: Request, body: Body) {
    !Closed(p, es) &&
      match body
      case Served => r.verb == ToolsCall(true) && !Updates(p, es) && !IsFirstOfALaterLaunch(p, es)
      case UnknownTool => r.verb == ToolsCall(false) && !Updates(p, es) && !IsFirstOfALaterLaunch(p, es)
      case StaleRefused => r.verb.ToolsCall? && !Updates(p, es) && IsFirstOfALaterLaunch(p, es)
      case UpdateRefused => r.verb.ToolsCall? && Updates(p, es)
      case Tools => r.verb == ToolsList && (!Updates(p, es) || p.mode in {ListedFirst, ListedUpdaterFile, ListedServe})
      case ListRefused =>
        r.verb == ToolsList && Updates(p, es) && p.mode !in {ListedFirst, ListedUpdaterFile, ListedServe, Held}
      case Initialized(updating) => r.verb == Initialize && updating == Updates(p, es)
      case Pong => r.verb == Ping
      case MethodNotFound => r.verb == Other && r.id.Some?
  }

  /** The ids that one event entitles to an answer: its own, or those of all lists asked for so far when it
  is the look that finds the updater gone in the held mode. */
  function Entitles(p: Launch, es: seq<Event>, e: Event, body: Body): multiset<Option<JsonId>> {
    if e.Handle? && Earns(p, es, e.request, body) then multiset{e.request.id}
    else if body == Tools && p.mode == Held && e == Tick(false) && StartsUpdating(p) && !Gone(es)
      then multiset(ListIds(es))
    else multiset{}
  }

  function Entitled(p: Launch, es: seq<Event>, body: Body): multiset<Option<JsonId>> {
    if es == [] then multiset{}
    else
      var before, last := es[..|es| - 1], es[|es| - 1];
      Entitled(p, before, body) + Entitles(p, before, last, body)
  }

  lemma {:induction false} RunOfOneMore(s: State, es: seq<Event>, e: Event)
    ensures Run(s, es + [e]) == Next(Run(s, es), e)
    decreases |es|
  {
    if es == [] {
      assert [e][1..] == [] && [] + [e] == [e];
    } else {
      assert (es + [e])[1..] == es[1..] + [e];
      RunOfOneMore(Next(s, es[0]), es[1..], e);
    }
  }

  lemma OutGrows(s: State, e: Event) returns (more: seq<Frame>)
    ensures Next(s, e).out == s.out + more
  {
    match e
    case Handle(r) =>
      RememberedKeeps(s, r);
      more := if s.closed then [] else Reply(s, r);
    case Tick(runs) =>
      more := if s.watching && !runs && !s.closed then WentSends(s) else [];
      WentKeeps(s);
    case TimerFires => more := [];
    case InputEnds => more := [];
  }

  lemma OutOfOneMore(p: Launch, es: seq<Event>, e: Event)
    ensures Run(Begin(p), es + [e]).out == Run(Begin(p), es).out + Sends(p, es, e)
  {
    RunOfOneMore(Begin(p), es, e);
    var more := OutGrows(Run(Begin(p), es), e);
    SendsIs(p, es, e, more);
  }

  /** In the held mode no event closes output, and what is held are the lists so far. */
  lemma HeldAreTheLists(p: Launch, es: seq<Event>)
    requires p.mode == Held && StartsUpdating(p) && !Gone(es)
    ensures !Closed(p, es) && Run(Begin(p), es).held == ListIds(es)
  {
    var s := HeldInOrder(Begin(p), es);
    KnowsFromTheStart(p, es);
    assert [] + ListIds(es) == ListIds(es);
  }

  lemma IdsOfAnnounced(f: Frame, body: Body)
    ensures IdsOf([ListChanged, f], body) == IdsOf([f], body)
  {
    assert [ListChanged, f][1..] == [f];
  }

  /** Sends one response, after the notification or not. */
  lemma OneIsDue(p: Launch, es: seq<Event>, r: Request, due: Body, body: Body)
    requires Sends(p, es, Event.Handle(r)) in {[Response(r.id, due)], [ListChanged, Response(r.id, due)]}
    requires Earns(p, es, r, body) <==> body == due
    ensures IdsOf(Sends(p, es, Event.Handle(r)), body)
         == if Earns(p, es, r, body) then multiset{r.id} else multiset{}
  {
    IdsOfOne(Response(r.id, due), body);
    IdsOfAnnounced(Response(r.id, due), body);
  }

  lemma CallSendsItsDue(p: Launch, es: seq<Event>, r: Request, body: Body)
    requires r.verb.ToolsCall?
    ensures IdsOf(Sends(p, es, Event.Handle(r)), body)
         == if Earns(p, es, r, body) then multiset{r.id} else multiset{}
  {
    CallIsAnswered(p, es, r.id, r.verb.known);
    if !Closed(p, es) {
      var due := if Updates(p, es) then UpdateRefused
                 else if IsFirstOfALaterLaunch(p, es) then StaleRefused
                 else if r.verb.known then Served else UnknownTool;
      OneIsDue(p, es, r, due, body);
    }
  }

  lemma ListSendsItsDue(p: Launch, es: seq<Event>, r: Request, body: Body)
    requires r.verb.ToolsList?
    ensures IdsOf(Sends(p, es, Event.Handle(r)), body)
         == if Earns(p, es, r, body) then multiset{r.id} else multiset{}
  {
    ListIsAnswered(p, es, r.id);
    var listed := !Updates(p, es) || p.mode in {ListedFirst, ListedUpdaterFile, ListedServe};
    if !Closed(p, es) && (listed || p.mode != Held) {
      OneIsDue(p, es, r, if listed then Tools else ListRefused, body);
    }
  }

  lemma OtherSendsItsDue(p: Launch, es: seq<Event>, r: Request, body: Body)
    requires !r.verb.ToolsCall? && !r.verb.ToolsList?
    ensures IdsOf(Sends(p, es, Event.Handle(r)), body)
         == if Earns(p, es, r, body) then multiset{r.id} else multiset{}
  {
    OtherIsAnswered(p, es, r);
    if !Closed(p, es) && r.verb != Notification && (r.verb == Other ==> r.id.Some?) {
      var due := if r.verb == Initialize then Initialized(Updates(p, es))
                 else if r.verb == Ping then Pong else MethodNotFound;
      OneIsDue(p, es, r, due, body);
    }
  }

  lemma RequestSendsItsDue(p: Launch, es: seq<Event>, r: Request, body: Body)
    ensures IdsOf(Sends(p, es, Event.Handle(r)), body)
         == if Earns(p, es, r, body) then multiset{r.id} else multiset{}
  {
    if r.verb.ToolsCall? {
      CallSendsItsDue(p, es, r, body);
    } else if r.verb.ToolsList? {
      ListSendsItsDue(p, es, r, body);
    } else {
      OtherSendsItsDue(p, es, r, body);
    }
  }

  lemma EventSendsItsDue(p: Launch, es: seq<Event>, e: Event, body: Body)
    ensures IdsOf(Sends(p, es, e), body) == Entitles(p, es, e, body)
  {
    if e.Handle? {
      RequestSendsItsDue(p, es, e.request, body);
    } else {
      OnlyTheGoneUpdaterSends(p, es, e);
      IdsOfOne(ListChanged, body);
      if p.mode == Held && StartsUpdating(p) && !Gone(es) {
        HeldAreTheLists(p, es);
        IdsOfLists(ListIds(es), body);
      }
    }
  }

  lemma EntitledOfOneMore(p: Launch, es: seq<Event>, e: Event, body: Body)
    ensures Entitled(p, es + [e], body) == Entitled(p, es, body) + Entitles(p, es, e, body)
  {
    OneMore(es, e);
  }

  lemma OneMoreGetsItsOwn(p: Launch, es: seq<Event>, e: Event, body: Body)
    requires IdsOf(Run(Begin(p), es).out, body) == Entitled(p, es, body)
    ensures IdsOf(Run(Begin(p), es + [e]).out, body) == Entitled(p, es + [e], body)
  {
    OutOfOneMore(p, es, e);
    IdsOfTwo(Run(Begin(p), es).out, Sends(p, es, e), body);
    EventSendsItsDue(p, es, e, body);
    EntitledOfOneMore(p, es, e, body);
  }

  /** Over every run of every mode: the ids of the responses of each kind are exactly, each as often as it was
  asked, the ids that the events of the run entitle to it. */
  lemma {:induction false} EachGetsItsOwnAnswer(p: Launch, es: seq<Event>, body: Body)
    ensures IdsOf(Run(Begin(p), es).out, body) == Entitled(p, es, body)
    decreases |es|
  {
    if es != [] {
      var before, last := es[..|es| - 1], es[|es| - 1];
      assert es == before + [last];
      EachGetsItsOwnAnswer(p, before, body);
      OneMoreGetsItsOwn(p, before, last, body);
    }
  }
}
