/** The two JSON-RPC clients: which request an incoming frame settles. */
module Correlation {
  import opened Wrappers
  import Framing
  import Texts

  datatype Frame = Frame(id: Option<JsonId>, verb: string, body: int)

  /** What a client remembers. `rpc.js` keeps the last id it used, `mcp.js` the next it will use: `sent`
  is how many requests there were. */
  datatype State = State(
    sent: nat,
    pending: set<nat>,
    resolved: map<nat, Frame>,
    timedOut: set<nat>,
    notifications: seq<string>)

  const INIT := State(0, {}, map[], {}, [])

  datatype Event = Send | Receive(frame: Frame) | TimerFires(id: nat)

  predicate Settles(s: State, f: Frame) {
    f.id.Some? && f.id.value.Number? && f.id.value.n >= 0 && f.id.value.n in s.pending
  }

  /** `listens` tells the client that keeps notifications from the one that drops them. */
  function Next(s: State, e: Event, listens: bool): State {
    match e
    case Send => s.(sent := s.sent + 1, pending := s.pending + {s.sent + 1})
    case Receive(f) =>
      if Settles(s, f) then s.(pending := s.pending - {f.id.value.n}, resolved := s.resolved[f.id.value.n := f])
      else if listens && f.verb != "" then s.(notifications := s.notifications + [f.verb])
      else s
    case TimerFires(id) =>
      if id in s.pending then s.(pending := s.pending - {id}, timedOut := s.timedOut + {id}) else s
  }

  function Run(s: State, es: seq<Event>, listens: bool): State
    decreases |es|
  {
    if es == [] then s else Run(Next(s, es[0], listens), es[1..], listens)
  }

  // ----- nothing is lost and nothing is settled twice -----

  ghost predicate Partition(s: State) {
    && (forall id :: 1 <= id <= s.sent <==> id in s.pending || id in s.resolved || id in s.timedOut)
    && s.pending !! s.timedOut && s.pending !! s.resolved.Keys && s.resolved.Keys !! s.timedOut
    && (forall id :: id in s.resolved ==> s.resolved[id].id == Some(Number(id)))
  }

  /** An event settles no request but the one it names, and that one only once. */
  lemma NextSettlesOne(s: State, e: Event, listens: bool)
    requires Partition(s)
    ensures var t := Next(s, e, listens);
            && Partition(t)
            && (forall id :: id in s.resolved ==> id in t.resolved && t.resolved[id] == s.resolved[id])
            && s.timedOut <= t.timedOut
            && (forall id :: id in s.pending && id !in t.pending ==>
                  e == TimerFires(id) || (e.Receive? && e.frame.id == Some(Number(id))))
  {
  }

  /** Over every run the requests sent are the disjoint union of those resolved, timed out and pending,
  and what is settled stays as it is. */
  lemma {:induction false} RunConserves(s: State, es: seq<Event>, listens: bool)
    requires Partition(s)
    ensures var t := Run(s, es, listens);
            && Partition(t)
            && (forall id :: id in s.resolved ==> id in t.resolved && t.resolved[id] == s.resolved[id])
            && s.timedOut <= t.timedOut
    decreases |es|
  {
    if es != [] {
      NextSettlesOne(s, es[0], listens);
      RunConserves(Next(s, es[0], listens), es[1..], listens);
    }
  }

  // ----- one request, seen alone -----

  datatype Fate = Unsent | Pending | Resolved(frame: Frame) | TimedOut

  /** What becomes of request `id` by the events alone: the first frame that carries its id, or its timer,
  whichever comes first after it was sent. `sent` requests were sent before. */
  function FateOf(es: seq<Event>, sent: nat, id: nat): Fate
    decreases |es|
  {
    if es == [] then if 1 <= id <= sent then Pending else Unsent
    else if es[0].Send? then FateOf(es[1..], sent + 1, id)
    else if 1 <= id <= sent && es[0].Receive? && es[0].frame.id == Some(Number(id)) then Resolved(es[0].frame)
    else if 1 <= id <= sent && es[0] == TimerFires(id) then TimedOut
    else FateOf(es[1..], sent, id)
  }

  function FateIn(s: State, id: nat): Fate {
    if id in s.pending then Pending
    else if id in s.resolved then Resolved(s.resolved[id])
    else if id in s.timedOut then TimedOut
    else Unsent
  }

  lemma {:induction false} SettledStays(s: State, es: seq<Event>, listens: bool, id: nat)
    requires Partition(s) && (FateIn(s, id).Resolved? || FateIn(s, id).TimedOut?)
    ensures FateIn(Run(s, es, listens), id) == FateIn(s, id)
  {
    RunConserves(s, es, listens);
  }

  /** In every run the client's shared table gives each request the fate its own events give it:
  duplicate, late, unknown and out-of-order frames change nothing. */
  lemma {:induction false} TheTableTellsEachFate(s: State, es: seq<Event>, listens: bool, id: nat)
    requires Partition(s) && (FateIn(s, id).Pending? || FateIn(s, id).Unsent?)
    ensures FateIn(Run(s, es, listens), id) == FateOf(es, s.sent, id)
    decreases |es|
  {
    if es != [] {
      NextSettlesOne(s, es[0], listens);
      var t := Next(s, es[0], listens);
      if FateIn(t, id).Pending? || FateIn(t, id).Unsent? {
        TheTableTellsEachFate(t, es[1..], listens, id);
      } else {
        SettledStays(t, es[1..], listens, id);
      }
    }
  }

  // ----- frames out of a text stream -----

  /** The events a text stream brings: its frames in order, those that do not parse left out. */
  function Received(lines: seq<Texts.Text>, parse: Texts.Text -> Option<Frame>): seq<Event> {
    if lines == [] then []
    else (match parse(lines[0]) case Some(f) => [Receive(f)] case None => []) + Received(lines[1..], parse)
  }

  lemma {:induction false} RunOfTwo(s: State, a: seq<Event>, b: seq<Event>, listens: bool)
    ensures Run(s, a + b, listens) == Run(Run(s, a, listens), b, listens)
    decreases |a|
  {
    if a == [] {
      assert a + b == b;
    } else {
      assert (a + b)[1..] == a[1..] + b;
      RunOfTwo(Next(s, a[0], listens), a[1..], b, listens);
    }
  }

  lemma {:induction false} ReceivedOfTwo(a: seq<Texts.Text>, b: seq<Texts.Text>, parse: Texts.Text -> Option<Frame>)
    ensures Received(a + b, parse) == Received(a, parse) + Received(b, parse)
    decreases |a|
  {
    if a == [] {
      assert a + b == b;
    } else {
      assert (a + b)[1..] == a[1..] + b;
      ReceivedOfTwo(a[1..], b, parse);
    }
  }

  /** The line parses to a frame that carries the id. */
  predicate Answers(line: Texts.Text, parse: Texts.Text -> Option<Frame>, id: nat) {
    parse(line).Some? && parse(line).value.id == Some(Number(id))
  }

  predicate NoneAnswers(lines: seq<Texts.Text>, parse: Texts.Text -> Option<Frame>, id: nat) {
    forall line :: line in lines ==> !Answers(line, parse, id)
  }

  /** The i-th line answers the id, and none before it does. */
  predicate AnswersFirst(lines: seq<Texts.Text>, parse: Texts.Text -> Option<Frame>, id: nat, i: nat)
    requires i < |lines|
  {
    NoneAnswers(lines[..i], parse, id) && Answers(lines[i], parse, id)
  }

  /** The first of the lines that answers the id parses to `f`. */
  predicate FirstAnswer(lines: seq<Texts.Text>, parse: Texts.Text -> Option<Frame>, id: nat, f: Frame) {
    exists i :: 0 <= i < |lines| && AnswersFirst(lines, parse, id, i) && parse(lines[i]) == Some(f)
  }

  lemma FirstAnswerFrom(lines: seq<Texts.Text>, parse: Texts.Text -> Option<Frame>, id: nat, f: Frame)
    requires lines != []
    ensures NoneAnswers(lines, parse, id) <==> !Answers(lines[0], parse, id) && NoneAnswers(lines[1..], parse, id)
    ensures FirstAnswer(lines, parse, id, f)
       <==> if Answers(lines[0], parse, id) then parse(lines[0]) == Some(f) else FirstAnswer(lines[1..], parse, id, f)
  {
    var tail := lines[1..];
    assert forall line :: line in lines <==> line == lines[0] || line in tail;
    if Answers(lines[0], parse, id) {
      assert lines[..0] == [] && AnswersFirst(lines, parse, id, 0);
      forall i | 0 < i < |lines| ensures !NoneAnswers(lines[..i], parse, id) {
        assert lines[0] == lines[..i][0];
      }
    } else {
      forall i | 0 <= i < |tail| ensures NoneAnswers(lines[..i + 1], parse, id) <==> NoneAnswers(tail[..i], parse, id) {
        assert lines[..i + 1] == [lines[0]] + tail[..i];
      }
      if FirstAnswer(lines, parse, id, f) {
        var i :| 0 <= i < |lines| && AnswersFirst(lines, parse, id, i) && parse(lines[i]) == Some(f);
        assert i > 0 && lines[..(i - 1) + 1] == lines[..i] && tail[i - 1] == lines[i];
        assert AnswersFirst(tail, parse, id, i - 1);
      }
      if FirstAnswer(tail, parse, id, f) {
        var i :| 0 <= i < |tail| && AnswersFirst(tail, parse, id, i) && parse(tail[i]) == Some(f);
        assert lines[i + 1] == tail[i] && AnswersFirst(lines, parse, id, i + 1);
      }
    }
  }

  /** Of a stream's lines, the first that answers a pending request settles it, with the frame it parses to;
  with none it stays pending. */
  lemma {:induction false} StreamSettles(s: State, lines: seq<Texts.Text>,
      parse: Texts.Text -> Option<Frame>, listens: bool, id: nat, f: Frame)
    requires Partition(s) && id in s.pending
    ensures var t := Run(s, Received(lines, parse), listens);
      && (id in t.pending <==> NoneAnswers(lines, parse, id))
      && (FateIn(t, id) == Resolved(f) <==> FirstAnswer(lines, parse, id, f))
    decreases |lines|
  {
    if lines != [] {
      FirstAnswerFrom(lines, parse, id, f);
      var s' := match parse(lines[0]) case Some(g) => Next(s, Receive(g), listens) case None => s;
      OneLineIsReceived(s, lines, parse, listens);
      if parse(lines[0]).Some? {
        NextSettlesOne(s, Receive(parse(lines[0]).value), listens);
      }
      if Answers(lines[0], parse, id) {
        SettledStays(s', Received(lines[1..], parse), listens, id);
        RunConserves(s', Received(lines[1..], parse), listens);
      } else {
        StreamSettles(s', lines[1..], parse, listens, id, f);
      }
    }
  }

  lemma OneLineIsReceived(s: State, lines: seq<Texts.Text>, parse: Texts.Text -> Option<Frame>, listens: bool)
    requires lines != []
    ensures var s' := match parse(lines[0]) case Some(g) => Next(s, Receive(g), listens) case None => s;
      Run(s, Received(lines, parse), listens) == Run(s', Received(lines[1..], parse), listens)
  {
    match parse(lines[0])
    case Some(g) =>
      var rest := Received(lines[1..], parse);
      assert ([Receive(g)] + rest)[0] == Receive(g) && ([Receive(g)] + rest)[1..] == rest;
    case None =>
      assert [] + Received(lines[1..], parse) == Received(lines[1..], parse);
  }

  /** What a client remembers after a stream came in chunk by chunk. */
  function Fed(s: State, buffer: Texts.Text, chunks: seq<Texts.Text>, parse: Texts.Text -> Option<Frame>,
      listens: bool): State
    decreases |chunks|
  {
    if chunks == [] then s
    else
      var text := buffer + chunks[0];
      Fed(Run(s, Received(Framing.Frames(text), parse), listens), Framing.Rest(text), chunks[1..], parse, listens)
  }

  lemma {:induction false} FedIsTheWholeStream(s: State, buffer: Texts.Text, chunks: seq<Texts.Text>,
      parse: Texts.Text -> Option<Frame>, listens: bool)
    ensures Fed(s, buffer, chunks, parse, listens)
        == Run(s, Received(Framing.Handled(buffer, chunks).0, parse), listens)
    decreases |chunks|
  {
    if chunks != [] {
      var text := buffer + chunks[0];
      var first, later := Framing.Frames(text), Framing.Handled(Framing.Rest(text), chunks[1..]).0;
      FedIsTheWholeStream(Run(s, Received(first, parse), listens), Framing.Rest(text), chunks[1..], parse, listens);
      ReceivedOfTwo(first, later, parse);
      RunOfTwo(s, Received(first, parse), Received(later, parse), listens);
    }
  }

  /** Answers settle the same requests however their stream is cut into chunks. */
  lemma AnyChunksSettleTheSame(s: State, a: seq<Texts.Text>, b: seq<Texts.Text>, parse: Texts.Text -> Option<Frame>,
      listens: bool)
    requires Framing.Joined(a) == Framing.Joined(b)
    ensures Fed(s, [], a, parse, listens) == Fed(s, [], b, parse, listens)
  {
    Framing.AnyTwoSplitsAgree(a, b);
    FedIsTheWholeStream(s, [], a, parse, listens);
    FedIsTheWholeStream(s, [], b, parse, listens);
  }

  /** After a stream has come in, however it was cut, a request that was pending is resolved with the frame of
  the first line of the whole stream that answers it, and is still pending if there is none. */
  lemma FedSettles(s: State, buffer: Texts.Text, chunks: seq<Texts.Text>,
      parse: Texts.Text -> Option<Frame>, listens: bool, id: nat, f: Frame)
    requires Partition(s) && id in s.pending && Framing.NEWLINE !in buffer
    ensures var t, lines := Fed(s, buffer, chunks, parse, listens), Framing.Frames(buffer + Framing.Joined(chunks));
      && (id in t.pending <==> NoneAnswers(lines, parse, id))
      && (FateIn(t, id) == Resolved(f) <==> FirstAnswer(lines, parse, id, f))
  {
    FedIsTheWholeStream(s, buffer, chunks, parse, listens);
    Framing.ChunksDoNotMatter(buffer, chunks);
    StreamSettles(s, Framing.Frames(buffer + Framing.Joined(chunks)), parse, listens, id, f);
  }

  // ----- notifications -----

  /** The i-th line is a notification to the client: it has a method, and settles no request that was pending
  before the stream. */
  predicate Notifies(pending: set<nat>, lines: seq<Texts.Text>, parse: Texts.Text -> Option<Frame>, i: nat)
    requires i < |lines|
  {
    && parse(lines[i]).Some? && parse(lines[i]).value.verb != ""
    && !(exists id :: id in pending && Answers(lines[i], parse, id) && NoneAnswers(lines[..i], parse, id))
  }

  /** The methods of the notifications among the lines, in order. */
  function Notes(pending: set<nat>, lines: seq<Texts.Text>, parse: Texts.Text -> Option<Frame>): seq<string> {
    if lines == [] then []
    else
      var n := |lines| - 1;
      Notes(pending, lines[..n], parse)
      + (if Notifies(pending, lines, parse, n) then [parse(lines[n]).value.verb] else [])
  }

  lemma {:induction false} ReceivingAddsNone(s: State, lines: seq<Texts.Text>,
      parse: Texts.Text -> Option<Frame>, listens: bool)
    ensures Run(s, Received(lines, parse), listens).pending <= s.pending
    decreases |lines|
  {
    if lines != [] {
      var s' := match parse(lines[0]) case Some(g) => Next(s, Receive(g), listens) case None => s;
      OneLineIsReceived(s, lines, parse, listens);
      ReceivingAddsNone(s', lines[1..], parse, listens);
    }
  }

  lemma PendingAfter(s: State, lines: seq<Texts.Text>, parse: Texts.Text -> Option<Frame>, listens: bool, id: nat)
    requires Partition(s)
    ensures id in Run(s, Received(lines, parse), listens).pending <==> id in s.pending && NoneAnswers(lines, parse, id)
  {
    ReceivingAddsNone(s, lines, parse, listens);
    if id in s.pending {
      StreamSettles(s, lines, parse, listens, id, Frame(None, "", 0));
    }
  }

  lemma LastLineIsReceived(s: State, lines: seq<Texts.Text>, parse: Texts.Text -> Option<Frame>, listens: bool)
    requires lines != []
    ensures var n := |lines| - 1;
      var t := Run(s, Received(lines[..n], parse), listens);
      Run(s, Received(lines, parse), listens)
      == match parse(lines[n]) case Some(f) => Next(t, Receive(f), listens) case None => t
  {
    var n := |lines| - 1;
    assert lines == lines[..n] + [lines[n]];
    ReceivedOfTwo(lines[..n], [lines[n]], parse);
    RunOfTwo(s, Received(lines[..n], parse), Received([lines[n]], parse), listens);
    OneLineIsReceived(Run(s, Received(lines[..n], parse), listens), [lines[n]], parse, listens);
  }

  /** A client that listens keeps the method of every line that notifies, in order; the other keeps none. */
  lemma {:induction false} NotificationsAreKept(s: State, lines: seq<Texts.Text>,
      parse: Texts.Text -> Option<Frame>, listens: bool)
    requires Partition(s)
    ensures Run(s, Received(lines, parse), listens).notifications
         == s.notifications + (if listens then Notes(s.pending, lines, parse) else [])
    decreases |lines|
  {
    if lines != [] {
      var n := |lines| - 1;
      var t := Run(s, Received(lines[..n], parse), listens);
      NotificationsAreKept(s, lines[..n], parse, listens);
      LastLineIsReceived(s, lines, parse, listens);
      if parse(lines[n]).Some? {
        LastLineNotifies(s, lines, parse, listens);
      }
    }
  }

  lemma LastLineNotifies(s: State, lines: seq<Texts.Text>, parse: Texts.Text -> Option<Frame>, listens: bool)
    requires Partition(s) && lines != [] && parse(lines[|lines| - 1]).Some?
    ensures var n := |lines| - 1;
      var t, f := Run(s, Received(lines[..n], parse), listens), parse(lines[n]).value;
      Notifies(s.pending, lines, parse, n) <==> f.verb != "" && !Settles(t, f)
  {
    var n := |lines| - 1;
    var t, f := Run(s, Received(lines[..n], parse), listens), parse(lines[n]).value;
    if f.id.Some? && f.id.value.Number? && f.id.value.n >= 0 {
      PendingAfter(s, lines[..n], parse, listens, f.id.value.n);
    }
  }

  lemma TheStreamSettles(s: State, lines: seq<Texts.Text>, parse: Texts.Text -> Option<Frame>, listens: bool)
    requires Partition(s)
    ensures var t := Run(s, Received(lines, parse), listens);
      && (forall id :: id in t.pending <==> id in s.pending && NoneAnswers(lines, parse, id))
      && (forall id, f :: id in s.pending ==> (FateIn(t, id) == Resolved(f) <==> FirstAnswer(lines, parse, id, f)))
      && t.notifications == s.notifications + (if listens then Notes(s.pending, lines, parse) else [])
  {
    var t := Run(s, Received(lines, parse), listens);
    forall id ensures id in t.pending <==> id in s.pending && NoneAnswers(lines, parse, id) {
      PendingAfter(s, lines, parse, listens, id);
    }
    forall id, f | id in s.pending ensures FateIn(t, id) == Resolved(f) <==> FirstAnswer(lines, parse, id, f) {
      StreamSettles(s, lines, parse, listens, id, f);
    }
    NotificationsAreKept(s, lines, parse, listens);
  }

  // ----- the programs -----

  /** `makeClient` of `rpc.js`. */
  class RpcClient {
    const reader: Framing.Reader
    var pending: set<nat>
    var notifications: seq<string>
    var nextId: nat
    ghost var resolved: map<nat, Frame>
    ghost var timedOut: set<nat>

    ghost function Now(): State
      reads this
    {
      State(nextId, pending, resolved, timedOut, notifications)
    }

    ghost predicate Valid()
      reads this
    {
      Partition(Now())
    }

    constructor ()
      ensures Valid() && Now() == INIT && fresh(reader) && reader.buffer == []
    {
      reader := new Framing.Reader();
      pending, notifications, nextId := {}, [], 0;
      resolved, timedOut := map[], {};
    }

    method Rpc() returns (id: nat)
      requires Valid()
      modifies this
      ensures Valid() && Now() == Next(old(Now()), Send, true) && id == nextId
      ensures id == old(nextId) + 1 && pending == old(pending) + {id}
    {
      NextSettlesOne(Now(), Send, true);
      nextId := nextId + 1;
      id := nextId;
      pending := pending + {id};
    }

    method TimerFires(id: nat)
      requires Valid()
      modifies this
      ensures Valid() && Now() == Next(old(Now()), Event.TimerFires(id), true)
      ensures pending == old(pending) - {id} && (id in timedOut <==> id in old(timedOut) || id in old(pending))
    {
      NextSettlesOne(Now(), Event.TimerFires(id), true);
      if id in pending {
        pending := pending - {id};
        timedOut := timedOut + {id};
      }
    }

    method Receive(f: Frame)
      requires Valid()
      modifies this
      ensures Valid() && Now() == Next(old(Now()), Event.Receive(f), true)
    {
      NextSettlesOne(Now(), Event.Receive(f), true);
      if f.id.Some? && f.id.value.Number? && f.id.value.n >= 0 && f.id.value.n in pending {
        pending := pending - {f.id.value.n};
        resolved := resolved[f.id.value.n := f];
      } else if f.verb != "" {
        notifications := notifications + [f.verb];
      }
    }

    /** Of the lines that a chunk completes, the first that answers a pending request settles it; those that
    settle none and have a method are kept as notifications. */
    method Data(chunk: Texts.Text, parse: Texts.Text -> Option<Frame>)
      requires Valid()
      modifies this, reader
      ensures Valid() && Now() == Run(old(Now()), Received(Framing.Frames(old(reader.buffer) + chunk), parse), true)
      ensures reader.buffer == Framing.Rest(old(reader.buffer) + chunk)
      ensures var lines := Framing.Frames(old(reader.buffer) + chunk);
        && (forall id :: id in pending <==> id in old(pending) && NoneAnswers(lines, parse, id))
        && (forall id, f :: id in old(pending) ==>
              (FateIn(Now(), id) == Resolved(f) <==> FirstAnswer(lines, parse, id, f)))
        && notifications == old(notifications) + Notes(old(pending), lines, parse)
    {
      var lines := reader.Data(chunk);
      for i := 0 to |lines|
        invariant Valid() && Now() == Run(old(Now()), Received(lines[..i], parse), true)
        invariant reader.buffer == Framing.Rest(old(reader.buffer) + chunk)
      {
        assert lines[..i + 1] == lines[..i] + [lines[i]];
        ReceivedOfTwo(lines[..i], [lines[i]], parse);
        RunOfTwo(old(Now()), Received(lines[..i], parse), Received([lines[i]], parse), true);
        match parse(lines[i]) {
          case Some(f) => Receive(f);
          case None =>
        }
      }
      assert lines[..|lines|] == lines;
      TheStreamSettles(old(Now()), lines, parse, true);
    }
  }

  /** The class `Mcp` of `mcp.js`: no timers, no notifications, and `next` is the id to come. */
  class Mcp {
    const reader: Framing.Reader
    var next: nat
    var pending: set<nat>
    ghost var resolved: map<nat, Frame>

    ghost predicate Valid()
      reads this
    {
      next > 0 && Partition(Now())
    }

    ghost function Now(): State
      reads this
    {
      State(if next > 0 then next - 1 else 0, pending, resolved, {}, [])
    }

    constructor ()
      ensures Valid() && Now() == INIT && fresh(reader) && reader.buffer == []
    {
      reader := new Framing.Reader();
      next, pending, resolved := 1, {}, map[];
    }

    method Send() returns (id: nat)
      requires Valid()
      modifies this
      ensures Valid() && Now() == Next(old(Now()), Event.Send, false) && id == Now().sent
      ensures id == old(next) && pending == old(pending) + {id}
    {
      NextSettlesOne(Now(), Event.Send, false);
      id := next;
      next := next + 1;
      pending := pending + {id};
    }

    method Receive(f: Frame)
      requires Valid()
      modifies this
      ensures Valid() && Now() == Next(old(Now()), Event.Receive(f), false)
    {
      NextSettlesOne(Now(), Event.Receive(f), false);
      if f.id.Some? && f.id.value.Number? && f.id.value.n >= 0 && f.id.value.n in pending {
        pending := pending - {f.id.value.n};
        resolved := resolved[f.id.value.n := f];
      }
    }

    /** Of the lines that a chunk completes, the first that answers a pending request settles it. */
    method Data(chunk: Texts.Text, parse: Texts.Text -> Option<Frame>)
      requires Valid()
      modifies this, reader
      ensures Valid() && Now() == Run(old(Now()), Received(Framing.Frames(old(reader.buffer) + chunk), parse), false)
      ensures reader.buffer == Framing.Rest(old(reader.buffer) + chunk)
      ensures var lines := Framing.Frames(old(reader.buffer) + chunk);
        && (forall id :: id in pending <==> id in old(pending) && NoneAnswers(lines, parse, id))
        && (forall id, f :: id in old(pending) ==>
              (FateIn(Now(), id) == Resolved(f) <==> FirstAnswer(lines, parse, id, f)))
    {
      var lines := reader.Data(chunk);
      for i := 0 to |lines|
        invariant Valid() && Now() == Run(old(Now()), Received(lines[..i], parse), false)
        invariant reader.buffer == Framing.Rest(old(reader.buffer) + chunk)
      {
        assert lines[..i + 1] == lines[..i] + [lines[i]];
        ReceivedOfTwo(lines[..i], [lines[i]], parse);
        RunOfTwo(old(Now()), Received(lines[..i], parse), Received([lines[i]], parse), false);
        match parse(lines[i]) {
          case Some(f) => Receive(f);
          case None =>
        }
      }
      assert lines[..|lines|] == lines;
      TheStreamSettles(old(Now()), lines, parse, false);
    }
  }
}
