/** The stand-in server of the update measurements: what it answers in each of its modes, over every
order of requests, timer ticks and ends.

`State` is what the server remembers, `Next` what one event makes of it; the class `Server` at the end
is the program itself, each of whose handlers is proved to do what `Next` says. */
module UpdateStub {
  import opened Wrappers

  /** A frame's method, as the handler tells methods apart. `Notification` is every method whose name
  begins with "notifications/". */
  datatype Method = Initialize | Notification | Ping | ToolsList | ToolsCall(known: bool) | Other

  datatype Request = Request(id: Option<JsonId>, verb: Method)

  datatype Body =
    | Initialized(updating: bool) | Pong | Tools | ListRefused | UpdateRefused | StaleRefused | Served
    | UnknownTool | MethodNotFound

  datatype Frame = Response(id: Option<JsonId>, body: Body) | ListChanged

  datatype Mode =
    | UpdatingFirst | Normal | UpdatingAlways | ListedFirst | UpdaterFile | ListedUpdaterFile
    | ListedServe | Held | Notify | Q261

  datatype State = State(
    mode: Mode,
    launchNo: nat,
    updating: bool,
    watching: bool,     // an interval looks for the updater's file
    endTimer: bool,     // a timer will end the conversation
    held: seq<Option<JsonId>>,
    listed: bool,
    refused: bool,
    ending: bool,
    closed: bool,       // standard output is ended: a write after that sends nothing
    out: seq<Frame>)

  datatype Event =
    | Handle(request: Request)
    | Tick(updaterRuns: bool)
    | TimerFires
    | InputEnds

  // ----- what the code does -----

  predicate Listed(mode: Mode) {
    mode.ListedFirst? || mode.ListedUpdaterFile? || mode.ListedServe?
  }

  predicate ByFile(mode: Mode) {
    mode.UpdaterFile? || mode.ListedUpdaterFile? || mode.Held? || mode.Notify? || mode.ListedServe?
  }

  function Start(mode: Mode, launchNo: nat, fileNamed: bool, fileExists: bool): State {
    var first := (mode.UpdatingFirst? || mode.ListedFirst?) && launchNo == 1;
    var updating := mode.UpdatingAlways? || first || (ByFile(mode) && fileNamed && fileExists);
    var byFile := ByFile(mode);
    State(mode, launchNo, updating, updating && byFile, updating && !byFile, [], false, false, false, false, [])
  }

  function Sent(s: State, frames: seq<Frame>): State {
    if s.closed then s else s.(out := s.out + frames)
  }

  function Ended(s: State): State {
    if s.ending then s else s.(ending := true, closed := true)
  }

  function Lists(ids: seq<Option<JsonId>>): seq<Frame> {
    seq(|ids|, i requires 0 <= i < |ids| => Response(ids[i], Tools))
  }

  predicate RefusesAsStale(s: State) {
    !s.updating && s.mode.Q261? && s.launchNo > 1 && !s.listed && !s.refused
  }

  predicate HoldsLists(s: State) {
    s.updating && s.mode.Held?
  }

  function Reply(s: State, r: Request): seq<Frame> {
    match r.verb
    case Initialize => [Response(r.id, Initialized(s.updating))]
    case Notification => []
    case Ping => [Response(r.id, Pong)]
    case ToolsList =>
      if HoldsLists(s) then []
      else [Response(r.id, if s.updating && !Listed(s.mode) then ListRefused else Tools)]
    case ToolsCall(known) =>
      if s.updating then [Response(r.id, UpdateRefused)]
      else if RefusesAsStale(s) then [ListChanged, Response(r.id, StaleRefused)]
      else [Response(r.id, if known then Served else UnknownTool)]
    case Other => if r.id.Some? then [Response(r.id, MethodNotFound)] else []
  }

  function Remembered(s: State, r: Request): State {
    match r.verb
    case ToolsList => s.(listed := true, held := if HoldsLists(s) then s.held + [r.id] else s.held)
    case ToolsCall(known) =>
      if RefusesAsStale(s) then s.(refused := true)
      else if !s.updating && known && s.mode.Q261? && s.launchNo == 1 then s.(endTimer := true)
      else s
    case _ => s
  }

  function UpdaterWent(s: State): State {
    var t := s.(watching := false);
    match s.mode
    case ListedServe => t.(updating := false)
    case Notify => Sent(t.(updating := false), [ListChanged])
    case Held => Sent(t.(updating := false, held := []), Lists(s.held))
    case _ => Ended(t)
  }

  function Next(s: State, e: Event): State {
    match e
    case Handle(r) => Sent(Remembered(s, r), Reply(s, r))
    case Tick(runs) => if s.watching && !runs then UpdaterWent(s) else s
    case TimerFires => if s.endTimer then Ended(s) else s
    case InputEnds => s.(ending := true)
  }

  function Run(s: State, es: seq<Event>): State
    decreases |es|
  {
    if es == [] then s else Run(Next(s, es[0]), es[1..])
  }

  // ----- every request is answered once -----

  /** The requests that are owed an answer: any but a notification, and of the unknown ones those that
  carry an id. */
  predicate Answerable(r: Request) {
    !r.verb.Notification? && (r.verb.Other? ==> r.id.Some?)
  }

  function AnswersIn(frames: seq<Frame>): multiset<Option<JsonId>> {
    if frames == [] then multiset{}
    else (if frames[0].Response? then multiset{frames[0].id} else multiset{}) + AnswersIn(frames[1..])
  }

  /** The ids owed an answer over a run: of each answerable request handled while output was open. */
  function Owed(s: State, es: seq<Event>): multiset<Option<JsonId>>
    decreases |es|
  {
    if es == [] then multiset{}
    else (if es[0].Handle? && !s.closed && Answerable(es[0].request) then multiset{es[0].request.id} else multiset{})
         + Owed(Next(s, es[0]), es[1..])
  }

  /** Lists wait only in the held mode, and there only while the updater runs and output is open. */
  ghost predicate HeldWell(s: State) {
    && (s.held != [] ==> s.mode.Held? && s.updating)
    && (s.mode.Held? ==> !s.closed && !s.endTimer)
    && (s.mode.Held? && s.updating ==> s.watching)
    && (s.updating && s.endTimer ==> !ByFile(s.mode))
    && (s.mode.Q261? ==> !s.updating)
  }

  lemma {:induction false} AnswersOfTwo(a: seq<Frame>, b: seq<Frame>)
    ensures AnswersIn(a + b) == AnswersIn(a) + AnswersIn(b)
    decreases |a|
  {
    if a == [] {
      assert a + b == b;
    } else {
      assert (a + b)[1..] == a[1..] + b;
      AnswersOfTwo(a[1..], b);
    }
  }

  lemma {:induction false} AnswersOfLists(ids: seq<Option<JsonId>>)
    ensures AnswersIn(Lists(ids)) == multiset(ids)
    decreases |ids|
  {
    if ids != [] {
      assert Lists(ids)[1..] == Lists(ids[1..]);
      AnswersOfLists(ids[1..]);
      assert ids == [ids[0]] + ids[1..];
    }
  }

  /** What remembering a request leaves alone, and what it holds. */
  lemma RememberedKeeps(s: State, r: Request)
    ensures var m := Remembered(s, r);
            && m.mode == s.mode && m.launchNo == s.launchNo && m.updating == s.updating && m.watching == s.watching
            && m.ending == s.ending && m.closed == s.closed && m.out == s.out
            && m.held == s.held + (if r.verb.ToolsList? && HoldsLists(s) then [r.id] else [])
            && m.listed == (s.listed || r.verb.ToolsList?)
            && m.refused == (s.refused || (r.verb.ToolsCall? && RefusesAsStale(s)))
  {
  }

  lemma RememberingIsWell(s: State, r: Request)
    requires HeldWell(s)
    ensures HeldWell(Remembered(s, r))
  {
  }

  lemma HeldWellStep(s: State, e: Event)
    requires HeldWell(s)
    ensures HeldWell(Next(s, e))
  {
    match e
    case Handle(r) => RememberingIsWell(s, r);
    case Tick(runs) => if s.watching && !runs { WentIsWell(s); }
    case TimerFires =>
    case InputEnds =>
  }

  lemma SentIsWell(s: State, frames: seq<Frame>)
    requires HeldWell(s)
    ensures HeldWell(Sent(s, frames))
  {
  }

  lemma WentIsWell(s: State)
    requires HeldWell(s)
    ensures HeldWell(UpdaterWent(s))
  {
    var t := s.(watching := false, updating := false);
    match s.mode
    case Notify => SentIsWell(t, [ListChanged]);
    case Held => SentIsWell(t.(held := []), Lists(s.held));
    case _ =>
  }

  function OwedBy(s: State, e: Event): multiset<Option<JsonId>> {
    if e.Handle? && !s.closed && Answerable(e.request) then multiset{e.request.id} else multiset{}
  }

  lemma AnswersOfOne(f: Frame)
    ensures AnswersIn([f]) == if f.Response? then multiset{f.id} else multiset{}
  {
  }

  predicate AnswersNow(s: State, r: Request) {
    Answerable(r) && !(r.verb.ToolsList? && HoldsLists(s))
  }

  /** A reply is nothing, one response to the request, or the notification and the stale refusal. */
  lemma ReplyShape(s: State, r: Request)
    ensures var reply := Reply(s, r);
            if !AnswersNow(s, r) then reply == []
            else if r.verb.ToolsCall? && RefusesAsStale(s) then reply == [ListChanged, Response(r.id, StaleRefused)]
            else |reply| == 1 && reply[0].Response? && reply[0].id == r.id && !reply[0].body.StaleRefused?
  {
  }

  lemma ReplyAnswers(s: State, r: Request)
    ensures AnswersIn(Reply(s, r)) == if AnswersNow(s, r) then multiset{r.id} else multiset{}
  {
    ReplyShape(s, r);
    var reply := Reply(s, r);
    if |reply| == 2 {
      AnswersOfTwo([reply[0]], [reply[1]]);
      AnswersOfOne(reply[0]);
      AnswersOfOne(reply[1]);
      assert reply == [reply[0]] + [reply[1]];
    } else if |reply| == 1 {
      assert reply == [reply[0]];
      AnswersOfOne(reply[0]);
    }
  }

  /** What the updater's going sends. */
  function WentSends(s: State): seq<Frame> {
    match s.mode
    case Notify => [ListChanged]
    case Held => Lists(s.held)
    case _ => []
  }

  lemma SentKeeps(s: State, frames: seq<Frame>)
    ensures var t := Sent(s, frames);
            t.held == s.held && t.refused == s.refused && t.out == if s.closed then s.out else s.out + frames
  {
  }

  /** What it leaves alone. */
  lemma WentKeeps(s: State)
    ensures var t := UpdaterWent(s);
            && t.held == (if s.mode.Held? then [] else s.held) && t.refused == s.refused
            && t.out == (if s.closed then s.out else s.out + WentSends(s))
  {
    var t := s.(watching := false);
    if s.mode.Notify? {
      SentKeeps(t.(updating := false), [ListChanged]);
    } else if s.mode.Held? {
      SentKeeps(t.(updating := false, held := []), Lists(s.held));
    } else {
      assert s.out + WentSends(s) == s.out;
      assert UpdaterWent(s) == if s.mode.ListedServe? then t.(updating := false) else Ended(t);
    }
  }

  lemma HandleConserves(s: State, r: Request)
    requires HeldWell(s)
    ensures var t := Next(s, Handle(r));
            AnswersIn(t.out) + multiset(t.held) == AnswersIn(s.out) + multiset(s.held) + OwedBy(s, Handle(r))
  {
    ReplyAnswers(s, r);
    RememberedKeeps(s, r);
    AnswersOfTwo(s.out, Reply(s, r));
    var t := Next(s, Handle(r));
    if r.verb.ToolsList? && HoldsLists(s) {
      assert t.out == s.out;
      assert multiset(t.held) == multiset(s.held) + multiset{r.id};
    } else {
      assert t.held == s.held;
      assert t.out == if s.closed then s.out else s.out + Reply(s, r);
    }
  }

  lemma WentAnswers(s: State)
    ensures AnswersIn(WentSends(s)) == if s.mode.Held? then multiset(s.held) else multiset{}
  {
    AnswersOfOne(ListChanged);
    AnswersOfLists(s.held);
  }

  lemma WentConserves(s: State)
    requires HeldWell(s)
    ensures AnswersIn(UpdaterWent(s).out) + multiset(UpdaterWent(s).held) == AnswersIn(s.out) + multiset(s.held)
  {
    WentKeeps(s);
    WentAnswers(s);
    AnswersOfTwo(s.out, WentSends(s));
  }

  /** One step answers or holds exactly what it is owed. */
  lemma NextConserves(s: State, e: Event)
    requires HeldWell(s)
    ensures AnswersIn(Next(s, e).out) + multiset(Next(s, e).held) == AnswersIn(s.out) + multiset(s.held) + OwedBy(s, e)
  {
    match e
    case Handle(r) => HandleConserves(s, r);
    case Tick(runs) => if s.watching && !runs { WentConserves(s); }
    case TimerFires =>
    case InputEnds =>
  }

  /** Over every run of every mode, the ids answered and the ids still held are together exactly the ids
  owed an answer, each as often as it was asked. */
  lemma {:induction false} EveryRequestIsAnsweredOnce(s: State, es: seq<Event>)
    requires HeldWell(s)
    ensures HeldWell(Run(s, es))
    ensures AnswersIn(Run(s, es).out) + multiset(Run(s, es).held) == AnswersIn(s.out) + multiset(s.held) + Owed(s, es)
    decreases |es|
  {
    if es != [] {
      HeldWellStep(s, es[0]);
      NextConserves(s, es[0]);
      EveryRequestIsAnsweredOnce(Next(s, es[0]), es[1..]);
    }
  }

  lemma StartIsWell(mode: Mode, launchNo: nat, fileNamed: bool, fileExists: bool)
    ensures HeldWell(Start(mode, launchNo, fileNamed, fileExists))
    ensures Start(mode, launchNo, fileNamed, fileExists).out == []
  {
  }

  lemma SentBy(s: State, r: Request)
    ensures AnswersIn(Next(s, Handle(r)).out)
         == AnswersIn(s.out) + (if !s.closed && AnswersNow(s, r) then multiset{r.id} else multiset{})
  {
    ReplyAnswers(s, r);
    RememberedKeeps(s, r);
    AnswersOfTwo(s.out, Reply(s, r));
  }

  /** A request with an id is answered by one response of that id, at once, exactly when output is open,
  its method is no notification and it is not a list that is held. */
  lemma AnsweredAtOnce(s: State, r: Request)
    requires r.id.Some? && HeldWell(s)
    ensures var t := Next(s, Handle(r));
            && (AnswersIn(t.out) == AnswersIn(s.out) || AnswersIn(t.out) == AnswersIn(s.out) + multiset{r.id})
            && (AnswersIn(t.out) == AnswersIn(s.out) + multiset{r.id}
                <==> !s.closed && !r.verb.Notification? && !(r.verb.ToolsList? && HoldsLists(s)))
  {
    SentBy(s, r);
    assert (AnswersIn(s.out) + multiset{r.id})[r.id] == AnswersIn(s.out)[r.id] + 1;
  }

  // ----- the updater -----

  lemma NextNeverUpdatesAgain(s: State, e: Event)
    ensures Next(s, e).updating ==> s.updating
  {
    if e.Handle? {
      RememberedKeeps(s, e.request);
    }
  }

  /** Once the server does not update, no run makes it update again. */
  lemma {:induction false} NeverUpdatingAgain(s: State, es: seq<Event>)
    requires !s.updating
    ensures !Run(s, es).updating
    decreases |es|
  {
    if es != [] {
      NextNeverUpdatesAgain(s, es[0]);
      NeverUpdatingAgain(Next(s, es[0]), es[1..]);
    }
  }

  ghost predicate NoneServed(frames: seq<Frame>) {
    forall f :: f in frames && f.Response? ==> !f.body.Served? && !f.body.UnknownTool?
  }

  lemma ReplyServesNone(s: State, r: Request)
    requires s.updating
    ensures NoneServed(Reply(s, r))
    ensures r.verb.ToolsCall? ==> Reply(s, r) == [Response(r.id, UpdateRefused)]
  {
  }

  /** As long as it updates it has served nothing. */
  lemma NextServesNone(s: State, e: Event)
    requires NoneServed(s.out) && Next(s, e).updating
    ensures NoneServed(Next(s, e).out)
  {
    NextNeverUpdatesAgain(s, e);
    match e
    case Handle(r) =>
      ReplyServesNone(s, r);
      RememberedKeeps(s, r);
    case Tick(_) => WentKeeps(s);
    case TimerFires =>
    case InputEnds =>
  }

  /** No call that comes while the updater runs is served: a run that still updates at its end has sent no
  result of a call but refusals. */
  lemma {:induction false} NoCallIsServedWhileUpdating(s: State, es: seq<Event>)
    requires NoneServed(s.out) && Run(s, es).updating
    ensures NoneServed(Run(s, es).out)
    decreases |es|
  {
    if es != [] {
      if !Next(s, es[0]).updating {
        NeverUpdatingAgain(Next(s, es[0]), es[1..]);
      }
      NextServesNone(s, es[0]);
      NoCallIsServedWhileUpdating(Next(s, es[0]), es[1..]);
    }
  }

  /** The ids of the lists asked for in a run. */
  function ListIds(es: seq<Event>): seq<Option<JsonId>> {
    if es == [] then []
    else (if es[0].Handle? && es[0].request.verb.ToolsList? then [es[0].request.id] else []) + ListIds(es[1..])
  }

  ghost predicate UpdaterStays(es: seq<Event>) {
    forall e :: e in es && e.Tick? ==> e.updaterRuns
  }

  predicate Holds(s: State) {
    s.mode.Held? && s.updating && s.watching && !s.closed
  }

  lemma HeldByOne(s: State, e: Event) returns (t: State)
    requires Holds(s) && !s.endTimer && (e.Tick? ==> e.updaterRuns)
    ensures t == Next(s, e) && Holds(t) && !t.endTimer
    ensures t.held == s.held + ListIds([e])
  {
    t := Next(s, e);
    assert [e][1..] == [] && ListIds([]) == [];
    if e.Handle? {
      RememberedKeeps(s, e.request);
    }
  }

  lemma ListIdsFrom(es: seq<Event>)
    requires es != []
    ensures ListIds(es) == ListIds([es[0]]) + ListIds(es[1..])
    ensures UpdaterStays(es) ==> UpdaterStays(es[1..]) && (es[0].Tick? ==> es[0].updaterRuns)
  {
    assert es[0] in es;
    assert [es[0]][1..] == [] && ListIds([]) == [];
  }

  /** While the updater runs, the held mode holds every list, in the order they arrived. */
  lemma {:induction false} HeldInOrder(s: State, es: seq<Event>) returns (t: State)
    requires Holds(s) && !s.endTimer && UpdaterStays(es)
    ensures t == Run(s, es) && Holds(t) && t.held == s.held + ListIds(es)
    decreases |es|
  {
    if es == [] {
      t := s;
    } else {
      t := HeldByOne(s, es[0]);
      ListIdsFrom(es);
      t := HeldInOrder(t, es[1..]);
    }
  }

  /** When the updater goes, every held list is answered, once, in the order it arrived, and nothing is
  held any more. */
  lemma HeldListsAreAnswered(launchNo: nat, es: seq<Event>)
    requires UpdaterStays(es)
    ensures var s := Run(Start(Mode.Held, launchNo, true, true), es);
            var t := Next(s, Tick(false));
            t.out == s.out + Lists(ListIds(es)) && t.held == [] && !t.updating
  {
    var s := HeldInOrder(Start(Mode.Held, launchNo, true, true), es);
    assert [] + ListIds(es) == ListIds(es);
  }

  // ----- the refusal of a list that may be stale -----

  predicate IsStaleRefusal(f: Frame) {
    f.Response? && f.body.StaleRefused?
  }

  function Stale(frames: seq<Frame>): nat {
    if frames == [] then 0 else (if IsStaleRefusal(frames[0]) then 1 else 0) + Stale(frames[1..])
  }

  lemma {:induction false} StaleOfTwo(a: seq<Frame>, b: seq<Frame>)
    ensures Stale(a + b) == Stale(a) + Stale(b)
    decreases |a|
  {
    if a == [] {
      assert a + b == b;
    } else {
      assert (a + b)[1..] == a[1..] + b;
      StaleOfTwo(a[1..], b);
    }
  }

  lemma {:induction false} NoStaleLists(ids: seq<Option<JsonId>>)
    ensures Stale(Lists(ids)) == 0
    decreases |ids|
  {
    if ids != [] {
      assert Lists(ids)[1..] == Lists(ids[1..]);
      NoStaleLists(ids[1..]);
    }
  }

  /** Every stale refusal follows the notification that the list changed. */
  ghost predicate Announced(frames: seq<Frame>) {
    forall i :: 0 <= i < |frames| && IsStaleRefusal(frames[i]) ==> i > 0 && frames[i - 1].ListChanged?
  }

  predicate Asks(e: Event, call: bool) {
    e.Handle? && (if call then e.request.verb.ToolsCall? else e.request.verb.ToolsList?)
  }

  /** Whether a run asks for a list, or makes a call. */
  predicate Asked(es: seq<Event>, call: bool) {
    exists i :: 0 <= i < |es| && Asks(es[i], call)
  }

  lemma AskedOfOneMore(es: seq<Event>, e: Event, call: bool)
    ensures Asked(es + [e], call) <==> Asked(es, call) || Asks(e, call)
  {
    var more := es + [e];
    assert more[|es|] == e;
    if Asked(es, call) {
      var i :| 0 <= i < |es| && Asks(es[i], call);
      assert Asks(more[i], call);
    }
    if Asked(more, call) {
      var i :| 0 <= i < |more| && Asks(more[i], call);
      assert i < |es| ==> Asks(es[i], call);
    }
  }

  /** What the flags of the refusal remember of the run so far. */
  ghost predicate Remembers(s: State, before: seq<Event>) {
    && s.mode.Q261? && s.launchNo > 1 && !s.updating && !s.watching
    && (s.listed <==> Asked(before, false))
    && (s.refused ==> Asked(before, true))
    && (Asked(before, true) ==> s.refused || s.listed)
  }

  lemma StaleOfOne(f: Frame)
    ensures Stale([f]) == if IsStaleRefusal(f) then 1 else 0
  {
  }

  lemma StaleOfReply(s: State, r: Request)
    ensures Stale(Reply(s, r)) == if r.verb.ToolsCall? && RefusesAsStale(s) then 1 else 0
    ensures Announced(Reply(s, r))
  {
    ReplyShape(s, r);
    var reply := Reply(s, r);
    if |reply| == 1 {
      StaleOfOne(reply[0]);
      assert reply == [reply[0]];
    } else if |reply| == 2 {
      StaleOfOne(reply[0]);
      StaleOfOne(reply[1]);
      StaleOfTwo([reply[0]], [reply[1]]);
      assert reply == [reply[0]] + [reply[1]];
    }
  }

  lemma WentSendsNoStale(s: State)
    ensures Stale(WentSends(s)) == 0 && forall f :: f in WentSends(s) ==> !IsStaleRefusal(f)
  {
    StaleOfOne(ListChanged);
    NoStaleLists(s.held);
  }

  lemma AnnouncedWithMore(a: seq<Frame>, b: seq<Frame>)
    requires Announced(a) && forall f :: f in b ==> !IsStaleRefusal(f)
    ensures Announced(a + b)
  {
    var more := a + b;
    forall i | |a| <= i < |more| ensures !IsStaleRefusal(more[i]) {
      assert more[i] in b;
    }
  }

  lemma StaleOfWent(s: State)
    requires Announced(s.out)
    ensures Announced(UpdaterWent(s).out) && Stale(UpdaterWent(s).out) == Stale(s.out)
    ensures UpdaterWent(s).refused == s.refused
  {
    WentKeeps(s);
    WentSendsNoStale(s);
    StaleOfTwo(s.out, WentSends(s));
    AnnouncedWithMore(s.out, WentSends(s));
  }

  lemma StaleStep(s: State, e: Event)
    requires Announced(s.out) && Stale(s.out) <= (if s.refused then 1 else 0)
    ensures Announced(Next(s, e).out) && Stale(Next(s, e).out) <= (if Next(s, e).refused then 1 else 0)
  {
    match e
    case Handle(r) =>
      StaleOfReply(s, r);
      StaleOfTwo(s.out, Reply(s, r));
      RememberedKeeps(s, r);
    case Tick(runs) => StaleOfWent(s);
    case TimerFires =>
    case InputEnds =>
  }

  /** On one connection at most one call is refused as stale, and the notification is the frame before it. */
  lemma {:induction false} AtMostOneStaleRefusal(s: State, es: seq<Event>)
    requires Announced(s.out) && Stale(s.out) <= (if s.refused then 1 else 0)
    ensures Announced(Run(s, es).out) && Stale(Run(s, es).out) <= 1
    decreases |es|
  {
    if es != [] {
      StaleStep(s, es[0]);
      AtMostOneStaleRefusal(Next(s, es[0]), es[1..]);
    }
  }

  lemma RemembersStep(s: State, before: seq<Event>, e: Event)
    requires Remembers(s, before)
    ensures Remembers(Next(s, e), before + [e])
  {
    AskedOfOneMore(before, e, false);
    AskedOfOneMore(before, e, true);
    if e.Handle? {
      RememberedKeeps(s, e.request);
    }
  }

  lemma {:induction false} RemembersRun(s: State, before: seq<Event>, es: seq<Event>)
    requires Remembers(s, before)
    ensures Remembers(Run(s, es), before + es)
    decreases |es|
  {
    if es == [] {
      assert before + [] == before;
    } else {
      RemembersStep(s, before, es[0]);
      RemembersRun(Next(s, es[0]), before + [es[0]], es[1..]);
      assert before + [es[0]] + es[1..] == before + es;
    }
  }

  /** A call of a later launch is refused as stale exactly when no list and no call came before it on its
  connection. */
  lemma StaleExactlyOnAFirstCall(launchNo: nat, es: seq<Event>)
    requires launchNo > 1
    ensures RefusesAsStale(Run(Start(Mode.Q261, launchNo, true, true), es)) <==> !Asked(es, false) && !Asked(es, true)
  {
    RemembersRun(Start(Mode.Q261, launchNo, true, true), [], es);
    assert [] + es == es;
  }

  // ----- the program -----

  class Server {
    const mode: Mode
    const launchNo: nat
    var updating: bool
    var watching: bool
    var endTimer: bool
    var heldLists: seq<Option<JsonId>>
    var listedOnThisConnection: bool
    var q261Refused: bool
    var ending: bool
    var closed: bool
    var out: seq<Frame>

    function Now(): State
      reads this
    {
      State(mode, launchNo, updating, watching, endTimer, heldLists,
            listedOnThisConnection, q261Refused, ending, closed, out)
    }

    constructor (mode: Mode, launchNo: nat, fileNamed: bool, fileExists: bool)
      ensures Now() == Start(mode, launchNo, fileNamed, fileExists)
    {
      this.mode, this.launchNo := mode, launchNo;
      var runs := fileNamed && fileExists;
      var first := (mode.UpdatingFirst? || mode.ListedFirst?) && launchNo == 1;
      var started := mode.UpdatingAlways? || first || (ByFile(mode) && runs);
      updating := started;
      watching := started && ByFile(mode);
      endTimer := started && !ByFile(mode);
      heldLists, out := [], [];
      listedOnThisConnection, q261Refused, ending, closed := false, false, false, false;
    }

    method Send(f: Frame)
      modifies this`out
      ensures out == if closed then old(out) else old(out) + [f]
    {
      if !closed {
        out := out + [f];
      }
    }

    method EndTheConversation()
      modifies this`ending, this`closed
      ensures Now() == Ended(old(Now()))
    {
      if ending {
        return;
      }
      ending, closed := true, true;
    }

    method AnswerList(id: Option<JsonId>)
      modifies this
      ensures Now() == Next(old(Now()), Event.Handle(Request(id, ToolsList)))
    {
      listedOnThisConnection := true;
      if updating && mode.Held? {
        heldLists := heldLists + [id];
        return;
      }
      if updating && !Listed(mode) {
        Send(Response(id, ListRefused));
      } else {
        Send(Response(id, Tools));
      }
    }

    method AnswerCall(id: Option<JsonId>, known: bool)
      modifies this
      ensures Now() == Next(old(Now()), Event.Handle(Request(id, ToolsCall(known))))
    {
      if updating {
        Send(Response(id, UpdateRefused));
      } else if mode.Q261? && launchNo > 1 && !listedOnThisConnection && !q261Refused {
        q261Refused := true;
        Send(ListChanged);
        Send(Response(id, StaleRefused));
      } else if known {
        if mode.Q261? && launchNo == 1 {
          endTimer := true;
        }
        Send(Response(id, Served));
      } else {
        Send(Response(id, UnknownTool));
      }
    }

    method Handle(r: Request)
      modifies this
      ensures Now() == Next(old(Now()), Event.Handle(r))
    {
      match r.verb {
        case ToolsList => AnswerList(r.id);
        case ToolsCall(known) => AnswerCall(r.id, known);
        case Initialize => Send(Response(r.id, Initialized(updating)));
        case Ping => Send(Response(r.id, Pong));
        case Notification =>
        case Other =>
          if r.id.Some? {
            Send(Response(r.id, MethodNotFound));
          }
      }
    }

    method AnswerHeldLists()
      modifies this`heldLists, this`out
      ensures heldLists == [] && out == if closed then old(out) else old(out) + Lists(old(heldLists))
    {
      var ids := heldLists;
      heldLists := [];
      for i := 0 to |ids|
        invariant heldLists == [] && out == if closed then old(out) else old(out) + Lists(ids)[..i]
      {
        assert Lists(ids)[..i + 1] == Lists(ids)[..i] + [Response(ids[i], Tools)];
        Send(Response(ids[i], Tools));
      }
      assert Lists(ids)[..|ids|] == Lists(ids);
    }

    /** The interval looks for the updater's file. */
    method Tick(updaterRuns: bool)
      modifies this
      ensures Now() == Next(old(Now()), Event.Tick(updaterRuns))
    {
      if !watching || updaterRuns {
        return;
      }
      watching := false;
      if mode.ListedServe? {
        updating := false;
      } else if mode.Notify? {
        updating := false;
        Send(ListChanged);
      } else if mode.Held? {
        updating := false;
        AnswerHeldLists();
      } else {
        EndTheConversation();
      }
    }

    method TimerFires()
      modifies this
      ensures Now() == Next(old(Now()), Event.TimerFires)
    {
      if endTimer {
        EndTheConversation();
      }
    }

    method InputEnds()
      modifies this
      ensures Now() == Next(old(Now()), Event.InputEnds)
    {
      if !ending {
        ending := true;
      }
    }
  }
}
