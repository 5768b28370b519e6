/** One person's start on its own clock: how long it takes, and when it is shown a page.

Times are milliseconds of one clock. What the background, the scheduler and the timers do is arbitrary;
nothing but their bounds is asked of it. */
module PersonStart {

  type pos = x: nat | x > 0 witness 1

  datatype Ask = Answered | Refused | NobodyThere | NoAnswer

  datatype Outcome = Shown | NotShown

  /** The bounds: an answer, the whole poll, the wait between two looks, the retry of a busy pipe, one
  scheduler call, and how late a timer may fire. */
  datatype Bounds = Bounds(handOut: nat, start: nat, look: pos, retry: pos, call: nat, late: nat)

  function Least(a: int, b: int): int {
    if a < b then a else b
  }

  function Most(a: int, b: int): int {
    if a < b then b else a
  }

  // ----- opening the pipe -----

  datatype Try = Opens | Busy | Fails

  /** How each try comes out, and how late the timer after it fires. */
  datatype Pipe = Pipe(tries: nat -> Try, late: nat -> nat)

  datatype Opening = Opening(connected: bool, elapsed: nat, tries: nat)

  /** The tries from the k-th on, made `now` after the first. */
  function OpenFrom(pipe: Pipe, b: Bounds, now: nat, k: nat): Opening
    decreases if now < b.handOut then b.handOut - now else 0
  {
    if pipe.tries(k).Opens? then Opening(true, now, k + 1)
    else if pipe.tries(k).Fails? || now >= b.handOut then Opening(false, now, k + 1)
    else OpenFrom(pipe, b, now + Least(b.handOut - now, b.retry) + pipe.late(k), k + 1)
  }

  /** How long opening can take: only a bound that leaves time to wait lets a timer be late. */
  function OpenBound(b: Bounds): nat {
    if b.handOut == 0 then 0 else b.handOut + b.late
  }

  /** Opening ends by its bound. A busy pipe is tried again, and given up only at the bound; any other
  failure ends it at once. */
  lemma {:induction false} OpeningIsBounded(pipe: Pipe, b: Bounds, now: nat, k: nat)
    requires now <= OpenBound(b) && forall i :: pipe.late(i) <= b.late
    ensures var o := OpenFrom(pipe, b, now, k);
      && o.elapsed <= OpenBound(b) && o.tries > k && o.connected == pipe.tries(o.tries - 1).Opens?
      && (forall i :: k <= i < o.tries - 1 ==> pipe.tries(i).Busy?)
      && (!o.connected ==> pipe.tries(o.tries - 1).Fails? || o.elapsed >= b.handOut)
    decreases if now < b.handOut then b.handOut - now else 0
  {
    if pipe.tries(k).Busy? && now < b.handOut {
      OpeningIsBounded(pipe, b, now + Least(b.handOut - now, b.retry) + pipe.late(k), k + 1);
    }
  }

  method OpenConversation(pipe: Pipe, b: Bounds) returns (o: Opening)
    ensures o == OpenFrom(pipe, b, 0, 0)
  {
    var now, k := 0, 0;
    while true
      invariant OpenFrom(pipe, b, now, k) == OpenFrom(pipe, b, 0, 0)
      decreases if now < b.handOut then b.handOut - now else 0
    {
      if pipe.tries(k).Opens? {
        return Opening(true, now, k + 1);
      }
      var left := b.handOut - now;
      if !pipe.tries(k).Busy? || left <= 0 {
        return Opening(false, now, k + 1);
      }
      now := now + Least(left, b.retry) + pipe.late(k);
      k := k + 1;
    }
  }

  /** When the k-th try is made, if every try before it found the pipe busy. */
  function TryTime(pipe: Pipe, b: Bounds, k: nat): int {
    if k == 0 then 0
    else
      var before := TryTime(pipe, b, k - 1);
      before + Least(b.handOut - before, b.retry) + pipe.late(k - 1)
  }

  /** All tries before the k-th found the pipe busy, and the bound was not over yet. */
  ghost predicate BusyBefore(pipe: Pipe, b: Bounds, k: nat) {
    forall i :: 0 <= i < k ==> pipe.tries(i).Busy? && TryTime(pipe, b, i) < b.handOut
  }

  /** The first try that finds the pipe not busy opens it, and the retries got that far. */
  ghost predicate OpensAt(pipe: Pipe, b: Bounds, k: nat) {
    BusyBefore(pipe, b, k) && pipe.tries(k).Opens?
  }

  lemma OneRetry(pipe: Pipe, b: Bounds, now: nat, k: nat)
    requires pipe.tries(k).Busy? && now < b.handOut
    ensures OpenFrom(pipe, b, now, k) == OpenFrom(pipe, b, now + Least(b.handOut - now, b.retry) + pipe.late(k), k + 1)
  {
  }

  lemma NextTryTime(pipe: Pipe, b: Bounds, k: nat)
    ensures var now := TryTime(pipe, b, k);
      TryTime(pipe, b, k + 1) == now + Least(b.handOut - now, b.retry) + pipe.late(k)
  {
  }

  /** The opening goes on from there. */
  ghost predicate ComesTo(pipe: Pipe, b: Bounds, now: int, k: nat) {
    now >= 0 && OpenFrom(pipe, b, 0, 0) == OpenFrom(pipe, b, now, k)
  }

  lemma ComesOn(pipe: Pipe, b: Bounds, now: int, k: nat)
    requires ComesTo(pipe, b, now, k) && pipe.tries(k).Busy? && now < b.handOut
    ensures ComesTo(pipe, b, now + Least(b.handOut - now, b.retry) + pipe.late(k), k + 1)
  {
    OneRetry(pipe, b, now, k);
  }

  lemma {:induction false} RetriesCome(pipe: Pipe, b: Bounds, k: nat)
    requires BusyBefore(pipe, b, k)
    ensures ComesTo(pipe, b, TryTime(pipe, b, k), k)
  {
    if k > 0 {
      RetriesCome(pipe, b, k - 1);
      assert pipe.tries(k - 1).Busy? && TryTime(pipe, b, k - 1) < b.handOut;
      NextTryTime(pipe, b, k - 1);
      ComesOn(pipe, b, TryTime(pipe, b, k - 1), k - 1);
    }
  }

  /** Opening connects on the try that opens the pipe, and only if there is one. */
  lemma OpeningConnects(pipe: Pipe, b: Bounds)
    ensures forall k: nat :: OpensAt(pipe, b, k) ==>
      TryTime(pipe, b, k) >= 0 && OpenFrom(pipe, b, 0, 0) == Opening(true, TryTime(pipe, b, k), k + 1)
    ensures OpenFrom(pipe, b, 0, 0).connected ==> exists k: nat :: OpensAt(pipe, b, k)
  {
    forall k: nat | OpensAt(pipe, b, k)
      ensures TryTime(pipe, b, k) >= 0 && OpenFrom(pipe, b, 0, 0) == Opening(true, TryTime(pipe, b, k), k + 1)
    {
      RetriesCome(pipe, b, k);
    }
    if OpenFrom(pipe, b, 0, 0).connected {
      var k := TheTryThatOpens(pipe, b, 0);
    }
  }

  lemma {:induction false} TheTryThatOpens(pipe: Pipe, b: Bounds, k: nat) returns (j: nat)
    requires BusyBefore(pipe, b, k) && OpenFrom(pipe, b, 0, 0).connected
    ensures OpensAt(pipe, b, j)
    decreases if TryTime(pipe, b, k) < b.handOut then b.handOut - TryTime(pipe, b, k) else 0
  {
    RetriesCome(pipe, b, k);
    if pipe.tries(k).Opens? {
      j := k;
    } else {
      j := TheTryThatOpens(pipe, b, k + 1);
    }
  }

  // ----- one ask -----

  datatype Reaction = Answers | Refuses | Closes

  /** One ask from the background's side: how its pipe opens, how it reacts and after how long, and when
  the timer that cuts the wait off fires. */
  datatype Conversation = Conversation(pipe: Pipe, reaction: Reaction, comes: nat, cut: nat)

  datatype Reply = Reply(outcome: Ask, elapsed: nat)

  ghost predicate SoundConversation(c: Conversation, b: Bounds) {
    (forall i :: c.pipe.late(i) <= b.late) && b.handOut <= c.cut <= b.handOut + b.late
  }

  function AskOf(c: Conversation, b: Bounds): Reply {
    var o := OpenFrom(c.pipe, b, 0, 0);
    if !o.connected then Reply(NobodyThere, o.elapsed)
    else if c.comes > c.cut then Reply(NoAnswer, o.elapsed + c.cut)
    else
      var outcome := match c.reaction { case Answers => Answered case Refuses => Refused case Closes => NoAnswer };
      Reply(outcome, o.elapsed + c.comes)
  }

  /** The answer has a bound of its own, counted from the moment the pipe opened. */
  function AskBound(b: Bounds): nat {
    OpenBound(b) + b.handOut + b.late
  }

  /** An ask that finds nobody never gets past opening the pipe; any other can use both bounds. */
  lemma AskIsBounded(c: Conversation, b: Bounds)
    requires SoundConversation(c, b)
    ensures AskOf(c, b).elapsed <= AskBound(b)
    ensures AskOf(c, b).outcome.NobodyThere? ==> AskOf(c, b).elapsed <= OpenBound(b)
    ensures AskOf(c, b).outcome.Answered? ==> c.reaction.Answers? && c.comes <= c.cut
  {
    OpeningIsBounded(c.pipe, b, 0, 0);
  }

  /** Some try opens the pipe. */
  ghost predicate Connects(c: Conversation, b: Bounds) {
    exists k: nat :: OpensAt(c.pipe, b, k)
  }

  /** What an ask finds, by what the background does: its answer or its refusal if that comes before the
  cut, silence if it closes the connection or comes too late, and nobody if no try opens the pipe. */
  lemma WhatAnAskFinds(c: Conversation, b: Bounds)
    ensures var found := AskOf(c, b).outcome;
      && (found.NobodyThere? <==> !Connects(c, b))
      && (found.Answered? <==> Connects(c, b) && c.comes <= c.cut && c.reaction.Answers?)
      && (found.Refused? <==> Connects(c, b) && c.comes <= c.cut && c.reaction.Refuses?)
      && (found.NoAnswer? <==> Connects(c, b) && (c.comes > c.cut || c.reaction.Closes?))
    ensures forall k: nat :: OpensAt(c.pipe, b, k) ==>
      AskOf(c, b).elapsed == TryTime(c.pipe, b, k) + Least(c.comes, c.cut)
  {
    OpeningConnects(c.pipe, b);
  }

  method AskTheBackground(c: Conversation, b: Bounds) returns (reply: Reply)
    requires SoundConversation(c, b)
    ensures reply == AskOf(c, b)
    ensures reply.outcome.NobodyThere? <==> !Connects(c, b)
    ensures reply.outcome.Answered? <==> Connects(c, b) && c.comes <= c.cut && c.reaction.Answers?
    ensures reply.outcome.Refused? <==> Connects(c, b) && c.comes <= c.cut && c.reaction.Refuses?
    ensures reply.outcome.NoAnswer? <==> Connects(c, b) && (c.comes > c.cut || c.reaction.Closes?)
    ensures reply.elapsed <= if reply.outcome.NobodyThere? then OpenBound(b) else AskBound(b)
  {
    AskIsBounded(c, b);
    WhatAnAskFinds(c, b);
    var o := OpenConversation(c.pipe, b);
    if !o.connected {
      return Reply(NobodyThere, o.elapsed);
    }
    if c.comes > c.cut {
      return Reply(NoAnswer, o.elapsed + c.cut);
    }
    match c.reaction {
      case Answers => return Reply(Answered, o.elapsed + c.comes);
      case Refuses => return Reply(Refused, o.elapsed + c.comes);
      case Closes => return Reply(NoAnswer, o.elapsed + c.comes);
    }
  }

  // ----- the slowest asks there are -----

  /** How many more waits a pipe that stays busy takes after the next one. */
  function WaitsAfter(b: Bounds, now: nat): nat
    requires now < b.handOut
    decreases b.handOut - now
  {
    if b.handOut - now <= b.retry then 0 else 1 + WaitsAfter(b, now + b.retry)
  }

  function LateBefore(b: Bounds, until: nat, k: nat): nat {
    if k + 1 == until then b.late else 0
  }

  /** A pipe that is busy until try `until`, and whose timer is late only before that one. */
  function BusyUntil(b: Bounds, until: nat, last: Try): Pipe {
    Pipe(k => if k < until then Busy else last, k => LateBefore(b, until, k))
  }

  lemma {:induction false} BusyToTheBound(b: Bounds, now: nat, k: nat, last: Try)
    requires now < b.handOut && !last.Busy?
    ensures var until := k + WaitsAfter(b, now) + 1;
      OpenFrom(BusyUntil(b, until, last), b, now, k) == Opening(last.Opens?, b.handOut + b.late, until + 1)
    decreases b.handOut - now
  {
    var until := k + WaitsAfter(b, now) + 1;
    var pipe := BusyUntil(b, until, last);
    if b.handOut - now <= b.retry {
      assert OpenFrom(pipe, b, now, k) == OpenFrom(pipe, b, b.handOut + b.late, k + 1);
    } else {
      BusyToTheBound(b, now + b.retry, k + 1, last);
      assert OpenFrom(pipe, b, now, k) == OpenFrom(pipe, b, now + b.retry, k + 1);
    }
  }

  /** The bounds of an ask are met: one finds nobody after the whole bound of opening, another is silent for
  both bounds. */
  lemma TheBoundsAreMet(b: Bounds) returns (nobody: Conversation, silent: Conversation)
    ensures SoundConversation(nobody, b) && AskOf(nobody, b) == Reply(NobodyThere, OpenBound(b))
    ensures SoundConversation(silent, b) && AskOf(silent, b) == Reply(NoAnswer, AskBound(b))
  {
    var cut := b.handOut + b.late;
    if b.handOut == 0 {
      nobody := Conversation(Pipe(k => Fails, k => 0), Answers, 0, cut);
      silent := Conversation(Pipe(k => Opens, k => 0), Answers, cut + 1, cut);
    } else {
      var until := WaitsAfter(b, 0) + 1;
      BusyToTheBound(b, 0, 0, Fails);
      BusyToTheBound(b, 0, 0, Opens);
      nobody := Conversation(BusyUntil(b, until, Fails), Answers, 0, cut);
      silent := Conversation(BusyUntil(b, until, Opens), Answers, cut + 1, cut);
    }
  }

  // ----- the poll -----

  /** The asks of a poll from the background's side, and how long each wait in between lasts. */
  datatype Env = Env(asks: nat -> Conversation, waits: nat -> nat)

  ghost predicate Sound(env: Env, b: Bounds) {
    && (forall k :: SoundConversation(env.asks(k), b))
    && (forall k :: b.look <= env.waits(k) <= b.look + b.late)
  }

  function AnswerTo(env: Env, b: Bounds, k: nat): Ask {
    AskOf(env.asks(k), b).outcome
  }

  function Takes(env: Env, b: Bounds, k: nat): nat {
    AskOf(env.asks(k), b).elapsed
  }

  /** When the k-th ask begins, if every ask before it found nobody. */
  function AskTime(env: Env, b: Bounds, begun: nat, k: nat): nat {
    if k == 0 then begun else AskTime(env, b, begun, k - 1) + Takes(env, b, k - 1) + env.waits(k - 1)
  }

  /** The asks before the k-th found nobody. */
  ghost predicate NobodyBefore(env: Env, b: Bounds, k: nat) {
    forall i :: 0 <= i < k ==> AnswerTo(env, b, i).NobodyThere?
  }

  /** The k-th ask is made in time, is the first that finds somebody, and is answered. */
  ghost predicate PageAt(env: Env, begun: nat, b: Bounds, k: nat) {
    AskTime(env, b, begun, k) < begun + b.start && AnswerTo(env, b, k).Answered? && NobodyBefore(env, b, k)
  }

  /** The first ask in time that finds somebody is answered. */
  ghost predicate FindsAPage(env: Env, begun: nat, b: Bounds) {
    exists k: nat :: PageAt(env, begun, b, k)
  }

  /** The last of so many asks begins before the deadline. */
  ghost predicate AsksInTime(env: Env, begun: nat, b: Bounds, asks: nat) {
    asks == 0 || AskTime(env, b, begun, asks - 1) < begun + b.start
  }

  /** The longest that a look which finds nobody lasts: an ask, and the wait after it. */
  function Room(b: Bounds): nat {
    OpenBound(b) + b.look + b.late
  }

  /** The first k asks of a poll found nobody, and it is time for the next. */
  ghost predicate PollsOn(env: Env, begun: nat, b: Bounds, k: nat, now: nat) {
    && now == AskTime(env, b, begun, k) && NobodyBefore(env, b, k) && AsksInTime(env, begun, b, k)
    && (k > 0 ==> b.start > 0 && now < begun + b.start + Most(AskBound(b), Room(b)))
  }

  /** A poll runs on after its deadline for less than an ask that finds somebody, or a look that finds
  nobody. */
  method Poll(env: Env, begun: nat, b: Bounds) returns (outcome: Outcome, ended: nat, asks: nat)
    requires Sound(env, b)
    ensures outcome.Shown? <==> FindsAPage(env, begun, b)
    ensures b.start > 0 ==> ended < begun + b.start + Most(AskBound(b), Room(b))
    ensures b.start == 0 ==> ended == begun && asks == 0
    ensures AsksInTime(env, begun, b, asks)
  {
    var now, k := begun, 0;
    PollBegins(env, begun, b);
    while now < begun + b.start
      invariant PollsOn(env, begun, b, k, now)
      decreases begun + b.start - now
    {
      var answer, after := Look(env, begun, b, k, now);
      now, k := after, k + 1;
      if !answer.NobodyThere? {
        return if answer.Answered? then Shown else NotShown, now, k;
      }
    }
    NoneDecides(env, begun, b, k, now);
    return NotShown, now, k;
  }

  lemma PollBegins(env: Env, begun: nat, b: Bounds)
    ensures PollsOn(env, begun, b, 0, begun)
  {
  }

  /** One look: an ask, and a wait if it found nobody. */
  method Look(env: Env, begun: nat, b: Bounds, k: nat, now: nat) returns (answer: Ask, after: nat)
    requires Sound(env, b) && PollsOn(env, begun, b, k, now) && now < begun + b.start
    ensures AsksInTime(env, begun, b, k + 1) && after < begun + b.start + Most(AskBound(b), Room(b))
    ensures answer == AnswerTo(env, b, k)
    ensures answer.NobodyThere? ==> now < after && PollsOn(env, begun, b, k + 1, after)
    ensures !answer.NobodyThere? ==> (FindsAPage(env, begun, b) <==> answer.Answered?)
  {
    WhatAnAskTells(env, begun, b, k);
    var reply := AskTheBackground(env.asks(k), b);
    answer, after := reply.outcome, now + reply.elapsed;
    if answer.NobodyThere? {
      after := after + env.waits(k);
    }
  }

  /** What follows from an ask that is made in time when all before it found nobody. */
  lemma WhatAnAskTells(env: Env, begun: nat, b: Bounds, k: nat)
    requires Sound(env, b) && AskTime(env, b, begun, k) < begun + b.start && NobodyBefore(env, b, k)
    ensures SoundConversation(env.asks(k), b)
    ensures AskOf(env.asks(k), b) == Reply(AnswerTo(env, b, k), Takes(env, b, k))
    ensures AskTime(env, b, begun, k + 1) == AskTime(env, b, begun, k) + Takes(env, b, k) + env.waits(k)
    ensures b.look <= env.waits(k) <= b.look + b.late
    ensures AsksInTime(env, begun, b, k + 1)
    ensures AnswerTo(env, b, k).NobodyThere? ==> Takes(env, b, k) <= OpenBound(b) && NobodyBefore(env, b, k + 1)
    ensures !AnswerTo(env, b, k).NobodyThere? ==>
              Takes(env, b, k) <= AskBound(b) && (FindsAPage(env, begun, b) <==> AnswerTo(env, b, k).Answered?)
  {
    AskIsBounded(env.asks(k), b);
    if AnswerTo(env, b, k).Answered? {
      assert PageAt(env, begun, b, k);
    }
  }

  lemma {:induction false} AskTimesGrow(env: Env, b: Bounds, begun: nat, i: nat, j: nat)
    requires i <= j
    ensures AskTime(env, b, begun, i) <= AskTime(env, b, begun, j)
  {
    if i < j {
      AskTimesGrow(env, b, begun, i, j - 1);
    }
  }

  /** Two looks are at least one interval apart. */
  lemma {:induction false} AskTimesSpread(env: Env, b: Bounds, begun: nat, k: nat)
    requires Sound(env, b)
    ensures begun + k * b.look <= AskTime(env, b, begun, k)
  {
    if k > 0 {
      AskTimesSpread(env, b, begun, k - 1);
      assert k * b.look == (k - 1) * b.look + b.look;
      assert b.look <= env.waits(k - 1);
    }
  }

  /** So the asks that are made in time are at most as many as intervals begin before the deadline. */
  lemma AsksAreFew(env: Env, begun: nat, b: Bounds, asks: nat)
    requires Sound(env, b) && asks > 0 && AsksInTime(env, begun, b, asks)
    ensures (asks - 1) * b.look < b.start
  {
    AskTimesSpread(env, b, begun, asks - 1);
  }

  lemma NoneDecides(env: Env, begun: nat, b: Bounds, k: nat, now: nat)
    requires begun + b.start <= now == AskTime(env, b, begun, k) && NobodyBefore(env, b, k)
    ensures !FindsAPage(env, begun, b)
  {
    forall j: nat ensures !PageAt(env, begun, b, j) {
      if j >= k {
        AskTimesGrow(env, b, begun, k, j);
      }
    }
  }

  // ----- a background that answers in time -----

  /** What the k-th ask finds, of a background that answers every ask that begins from `from` on and is not
  met earlier by a refusal or a silence. */
  ghost predicate FindsAnswer(env: Env, b: Bounds, begun: nat, from: nat, k: nat) {
    AnswerTo(env, b, k).Answered? || (AskTime(env, b, begun, k) < from && AnswerTo(env, b, k).NobodyThere?)
  }

  /** With room for a look that finds nobody before the deadline, such a background is always shown. */
  lemma AnsweringInTimeIsShown(env: Env, begun: nat, b: Bounds, from: nat)
    requires Sound(env, b) && b.start > 0
    requires forall k :: FindsAnswer(env, b, begun, from, k)
    requires from + Room(b) <= begun + b.start
    ensures FindsAPage(env, begun, b)
  {
    var k := FirstAnswer(env, begun, b, from, 0);
    assert PageAt(env, begun, b, k);
  }

  lemma {:induction false} FirstAnswer(env: Env, begun: nat, b: Bounds, from: nat, k: nat) returns (d: nat)
    requires Sound(env, b)
    requires forall i :: FindsAnswer(env, b, begun, from, i)
    requires from + Room(b) <= begun + b.start
    requires NobodyBefore(env, b, k) && AskTime(env, b, begun, k) < begun + b.start
    ensures PageAt(env, begun, b, d)
    decreases if AskTime(env, b, begun, k) < from then from - AskTime(env, b, begun, k) else 0
  {
    assert FindsAnswer(env, b, begun, from, k);
    if AnswerTo(env, b, k).Answered? {
      d := k;
    } else {
      WhatAnAskTells(env, begun, b, k);
      d := FirstAnswer(env, begun, b, from, k + 1);
    }
  }

  function MissingWait(b: Bounds, m: nat, k: nat): nat {
    if k < m then b.look else b.look + b.late
  }

  /** Looks that come at once find nobody one interval apart, up to the m-th, which is the slowest there is;
  every ask after it is answered. */
  function Missing(b: Bounds, m: nat, nobody: Conversation): Env {
    var refused, there := Pipe(k => Fails, k => 0), Pipe(k => Opens, k => 0);
    Env(k => if k < m then Conversation(refused, Answers, 0, b.handOut)
             else if k == m then nobody
             else Conversation(there, Answers, 0, b.handOut),
        k => MissingWait(b, m, k))
  }

  lemma MissingAnswers(b: Bounds, m: nat, nobody: Conversation, k: nat)
    requires AskOf(nobody, b) == Reply(NobodyThere, OpenBound(b))
    ensures var env := Missing(b, m, nobody);
      && AnswerTo(env, b, k) == (if k <= m then NobodyThere else Answered)
      && Takes(env, b, k) == (if k == m then OpenBound(b) else 0)
      && env.waits(k) == MissingWait(b, m, k)
  {
  }

  lemma {:induction false} MissingTimes(b: Bounds, m: nat, nobody: Conversation, k: nat)
    requires AskOf(nobody, b) == Reply(NobodyThere, OpenBound(b)) && k <= m
    ensures AskTime(Missing(b, m, nobody), b, 0, k) == k * b.look
  {
    if k > 0 {
      MissingTimes(b, m, nobody, k - 1);
      MissingAnswers(b, m, nobody, k - 1);
      assert k * b.look == (k - 1) * b.look + b.look;
    }
  }

  /** The room cannot be made smaller: for a start bound of the room and any number of look intervals, a
  background that answers every ask from one millisecond later on can be missed. */
  lemma OneMillisecondLessCanMiss(b: Bounds, m: nat) returns (env: Env, from: nat)
    requires b.start == m * b.look + Room(b)
    ensures Sound(env, b) && from + Room(b) == b.start + 1
    ensures forall k :: FindsAnswer(env, b, 0, from, k)
    ensures !FindsAPage(env, 0, b)
  {
    var nobody, _ := TheBoundsAreMet(b);
    from, env := m * b.look + 1, Missing(b, m, nobody);
    forall k: nat ensures FindsAnswer(env, b, 0, from, k) {
      MissingAnswers(b, m, nobody, k);
      if k <= m {
        MissingIsEarly(b, m, nobody, k);
      }
    }
    MissingIsLate(b, m, nobody);
    NoneDecides(env, 0, b, m + 1, AskTime(env, b, 0, m + 1));
  }

  lemma MissingIsEarly(b: Bounds, m: nat, nobody: Conversation, k: nat)
    requires AskOf(nobody, b) == Reply(NobodyThere, OpenBound(b)) && k <= m
    ensures AskTime(Missing(b, m, nobody), b, 0, k) <= m * b.look
  {
    AskTimesGrow(Missing(b, m, nobody), b, 0, k, m);
    MissingTimes(b, m, nobody, m);
  }

  lemma MissingIsLate(b: Bounds, m: nat, nobody: Conversation)
    requires AskOf(nobody, b) == Reply(NobodyThere, OpenBound(b))
    ensures AskTime(Missing(b, m, nobody), b, 0, m + 1) == m * b.look + Room(b)
    ensures NobodyBefore(Missing(b, m, nobody), b, m + 1)
  {
    MissingTimes(b, m, nobody, m);
    MissingAnswers(b, m, nobody, m);
    forall k | 0 <= k < m + 1 ensures AnswerTo(Missing(b, m, nobody), b, k).NobodyThere? {
      MissingAnswers(b, m, nobody, k);
    }
  }

  // ----- the whole start -----

  /** What the code is told of its install, and what the scheduler answers. */
  datatype Task = Started | NotRegistered | Failed

  datatype Scheduler = Scheduler(first: Task, definition: bool, registers: bool, second: Task, takes: nat -> nat)

  datatype Install = Install(installed: bool, named: bool)

  /** How long the first calls take. */
  function Spent(s: Scheduler, calls: nat): nat {
    if calls == 0 then 0 else Spent(s, calls - 1) + s.takes(calls - 1)
  }

  lemma {:induction false} SpentIsBounded(s: Scheduler, b: Bounds, calls: nat)
    requires calls <= 4 && forall k :: s.takes(k) <= b.call
    ensures Spent(s, calls) <= 4 * b.call && Spent(s, calls) <= calls * b.call
  {
    if calls > 0 {
      SpentIsBounded(s, b, calls - 1);
    }
  }

  /** Through the task: it is run, and if it is not registered, its saved definition is read, registered
  and run; if that started it, the pipe is polled. */
  method StartThroughTheTask(install: Install, s: Scheduler, env: Env, begun: nat, b: Bounds)
    returns (outcome: Outcome, ended: nat, calls: nat, polledAt: nat)
    requires Sound(env, b) && b.start > 0
    requires forall k :: s.takes(k) <= b.call
    ensures calls == if !install.installed || !install.named then 0
                     else if !s.first.NotRegistered? then 1
                     else if !s.definition then 2
                     else if !s.registers then 3
                     else 4
    ensures polledAt == begun + Spent(s, calls) <= begun + 4 * b.call
    ensures outcome.Shown? <==>
              && install.installed && install.named
              && (s.first.Started? || (s.first.NotRegistered? && s.definition && s.registers && s.second.Started?))
              && FindsAPage(env, polledAt, b)
    ensures ended < begun + 4 * b.call + b.start + Most(AskBound(b), Room(b))
  {
    polledAt, ended, calls := begun, begun, 0;
    if !install.installed || !install.named {
      return NotShown, ended, calls, polledAt;
    }
    SpentIsBounded(s, b, 1);
    SpentIsBounded(s, b, 2);
    SpentIsBounded(s, b, 3);
    SpentIsBounded(s, b, 4);
    var run := s.first;
    ended, calls := ended + s.takes(0), 1;
    if run.NotRegistered? {
      ended, calls := ended + s.takes(1), 2;
      if !s.definition {
        return NotShown, ended, calls, ended;
      }
      ended, calls := ended + s.takes(2), 3;
      if !s.registers {
        return NotShown, ended, calls, ended;
      }
      run := s.second;
      ended, calls := ended + s.takes(3), 4;
    }
    if !run.Started? {
      return NotShown, ended, calls, ended;
    }
    polledAt := ended;
    var asks;
    outcome, ended, asks := Poll(env, polledAt, b);
  }

  /** The whole start: one ask, and what its answer asks for. `files` is how long reading and clearing the
  record and ending a hung background take, and `hungEnds` whether that background was ended. An answer or a
  refusal ends it at once; a silence goes on only if the hung background was ended. */
  method Show(first: Conversation, hungEnds: bool, files: nat, install: Install, s: Scheduler, env: Env, begun: nat,
      b: Bounds)
    returns (outcome: Outcome, ended: nat, calls: nat, polledAt: nat)
    requires SoundConversation(first, b) && Sound(env, b) && b.start > 0
    requires forall k :: s.takes(k) <= b.call
    ensures var met, inTime := Connects(first, b), first.comes <= first.cut;
      && (met && inTime && first.reaction.Answers? ==> outcome == Shown)
      && (met && inTime && first.reaction.Refuses? ==> outcome == NotShown)
      && (met && inTime && !first.reaction.Closes? ==> calls == 0 && ended == begun + AskOf(first, b).elapsed)
      && (met && (!inTime || first.reaction.Closes?) && !hungEnds ==> outcome == NotShown && calls == 0)
      && (!met || ((!inTime || first.reaction.Closes?) && hungEnds) ==>
            && polledAt == begun + AskOf(first, b).elapsed + files + Spent(s, calls)
            && (calls > 0 <==> install.installed && install.named)
            && (outcome.Shown? <==>
                  && install.installed && install.named
                  && (s.first.Started? || (s.first.NotRegistered? && s.definition && s.registers && s.second.Started?))
                  && FindsAPage(env, polledAt, b)))
    ensures ended < begun + (if Connects(first, b) then AskBound(b) else OpenBound(b))
                    + files + 4 * b.call + b.start + Most(AskBound(b), Room(b))
  {
    var reply := AskTheBackground(first, b);
    polledAt, ended, calls := begun, begun + reply.elapsed, 0;
    match reply.outcome {
      case Answered => return Shown, ended, 0, polledAt;
      case Refused => return NotShown, ended, 0, polledAt;
      case NoAnswer =>
        ended := ended + files;
        if !hungEnds {
          return NotShown, ended, 0, polledAt;
        }
      case NobodyThere => ended := ended + files;
    }
    outcome, ended, calls, polledAt := StartThroughTheTask(install, s, env, ended, b);
  }
}
