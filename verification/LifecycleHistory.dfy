/** What a world of the lifecycle protocol tells of the run that led to it. */
module LifecycleHistory {
  import opened Wrappers
  import opened Lifecycle
  import opened LifecycleInvariants

  // ----- marks -----

  /** What has to happen for a mark of that kind. */
  ghost predicate Calls(es: seq<Event>, id: Id, how: End) {
    match how
    case Stopped => By(id, StopVerb) in es
    case Update => By(id, BeginHandOver) in es
    case Refused => By(id, RefuseRoot) in es
    case SessionEnding => By(id, Notice(SessionEnding)) in es
    case EndCommand => By(id, Notice(EndCommand)) in es
  }

  ghost predicate MarkingTells(es: seq<Event>, id: Id, m: Marking) {
    m.Asked? || m.Read? ==> Calls(es, id, m.how)
  }

  ghost predicate ProcessTells(es: seq<Event>, id: Id, p: Process) {
    && MarkingTells(es, id, p.main) && MarkingTells(es, id, p.handOver) && MarkingTells(es, id, p.window)
    && (p.state.Stopping? ==> By(id, StopVerb) in es)
    && (p.started ==> By(id, WriteStarted(true)) in es)
    && (p.listening ==> By(id, StartAccepting) in es)
    && (p.threw ==> By(id, Throw) in es)
    && (p.cancelled && !p.handOver.Done? ==> By(id, StopVerb) in es)
    && (p.pc.RootRefused? || p.pc.RefusalPending? ==> By(id, RefuseRoot) in es)
  }

  /** The record was written as started, and its mark was called for. */
  ghost predicate RecordTells(es: seq<Event>, r: Record) {
    match r.ended
    case None => By(r.who, WriteStarted(true)) in es
    case Some(how) => Calls(es, r.who, how)
  }

  ghost predicate Tells(es: seq<Event>, w: World) {
    && (forall q :: q in w.procs ==> ProcessTells(es, q, w.procs[q]))
    && (w.record.Some? ==> RecordTells(es, w.record.value))
    && (forall n :: n in w.relays ==> RecordTells(es, w.relays[n]))
  }

  lemma MoreCalls(es: seq<Event>, e: Event, id: Id, how: End)
    requires Calls(es, id, how)
    ensures Calls(es + [e], id, how)
  {
  }

  lemma MoreProcess(es: seq<Event>, e: Event, id: Id, p: Process)
    requires ProcessTells(es, id, p)
    ensures ProcessTells(es + [e], id, p)
  {
    assert forall x :: x in es ==> x in es + [e];
  }

  lemma MoreRecord(es: seq<Event>, e: Event, r: Record)
    requires RecordTells(es, r)
    ensures RecordTells(es + [e], r)
  {
    assert forall x :: x in es ==> x in es + [e];
  }

  ghost predicate Under(m: Marking, how: End) {
    (m.Asked? || m.Read?) && m.how == how
  }

  /** A mark under way was so before, or the act calls for it; and what a process has done it had done before,
  or the act does it. */
  ghost predicate ComesFrom(p: Process, q: Process, act: Act) {
    && (forall how :: Under(q.main, how) ==>
          Under(p.main, how) || (act == FinallyMark && how == Stopped && p.state == Stopping))
    && (forall how :: Under(q.handOver, how) ==> Under(p.handOver, how) || (act == BeginHandOver && how == Update))
    && (forall how :: Under(q.window, how) ==>
          Under(p.window, how) || (act == Notice(how) && (how == SessionEnding || how == EndCommand)))
    && (q.state.Stopping? ==> p.state.Stopping? || act == StopVerb)
    && (q.started ==> p.started || act == WriteStarted(true))
    && (q.listening ==> p.listening || act == StartAccepting)
    && (q.threw ==> p.threw || act == Throw)
    && (p.window.Asked? || p.window.Read? ==> q.window == p.window || act.MarkRead? || act.MarkWrite?)
    && (q.cancelled && !q.handOver.Done? ==> (p.cancelled && !p.handOver.Done?) || act == StopVerb)
    && (q.pc.RootRefused? || q.pc.RefusalPending? ==> p.pc.RootRefused? || p.pc.RefusalPending? || act == RefuseRoot)
  }

  lemma TakingComesFrom(w: World, id: Id, act: Act)
    requires Enabled(w, By(id, act)) && WellFormed(w.procs[id])
    requires act.RefuseRoot? || act.RefusalRead? || act.RefusalWrite? || act.TakePipe?
          || act.WriteStarted? || act.StartAccepting?
    ensures ComesFrom(w.procs[id], OutcomeOf(w, id, act).p, act)
  {
  }

  lemma ServingComesFrom(w: World, id: Id, act: Act)
    requires Enabled(w, By(id, act)) && WellFormed(w.procs[id])
    requires act.ListenerFails? || act.StopVerb? || act.BeginHandOver?
          || act.CancelAfterHandOver? || act.Notice?
    ensures ComesFrom(w.procs[id], OutcomeOf(w, id, act).p, act)
  {
  }

  /** One activity's marking goes on or is over, and nothing else changes. */
  lemma MarkingGoesOn(p: Process, t: Thread, m: Marking, act: Act)
    requires (m.Done? || (m.Read? && Under(MarkingOf(p, t), m.how))) && (act.MarkRead? || act.MarkWrite?)
    ensures ComesFrom(p, WithMarking(p, t, m), act)
  {
    match t
    case Main =>
    case HandOver =>
    case Window =>
  }

  lemma ReadingComesFrom(w: World, id: Id, t: Thread, read: bool)
    requires Enabled(w, By(id, MarkRead(t, read)))
    ensures ComesFrom(w.procs[id], OutcomeOf(w, id, MarkRead(t, read)).p, MarkRead(t, read))
  {
    var p := w.procs[id];
    if !read {
      MarkingGoesOn(p, t, Done(ReadFailed), MarkRead(t, read));
    } else if Names(w.record, id) {
      MarkingGoesOn(p, t, Read(MarkingOf(p, t).how, w.record.value), MarkRead(t, read));
    } else {
      MarkingGoesOn(p, t, Done(NamesAnother), MarkRead(t, read));
    }
  }

  lemma WindowMarkedToo(p: Process, q: Process, windowMarked: bool, act: Act)
    requires ComesFrom(p, q, act)
    ensures ComesFrom(p, q.(windowMarked := windowMarked), act)
  {
  }

  lemma WritingComesFrom(w: World, id: Id, t: Thread, ok: bool)
    requires Enabled(w, By(id, MarkWrite(t, ok)))
    ensures ComesFrom(w.procs[id], OutcomeOf(w, id, MarkWrite(t, ok)).p, MarkWrite(t, ok))
  {
    var p := w.procs[id];
    if ok {
      MarkingGoesOn(p, t, Done(Wrote), MarkWrite(t, ok));
      WindowMarkedToo(p, WithMarking(p, t, Done(Wrote)), p.windowMarked || t.Window?, MarkWrite(t, ok));
    } else {
      MarkingGoesOn(p, t, Done(WriteFailed), MarkWrite(t, ok));
    }
  }

  lemma LeavingComesFrom(w: World, id: Id, act: Act)
    requires Enabled(w, By(id, act)) && WellFormed(w.procs[id])
    requires act.LeaveLoop? || act.Throw? || act.ReleasePipe? || act.FinallyMark?
    ensures ComesFrom(w.procs[id], OutcomeOf(w, id, act).p, act)
  {
  }

  lemma LastComesFrom(w: World, id: Id, act: Act)
    requires Enabled(w, By(id, act)) && WellFormed(w.procs[id])
    requires act.DisposeThrows? || act.Return? || act.WindowsEnds? || act.Crash?
    ensures ComesFrom(w.procs[id], OutcomeOf(w, id, act).p, act)
  {
  }

  lemma ActComesFrom(w: World, id: Id, act: Act)
    requires Enabled(w, By(id, act)) && WellFormed(w.procs[id])
    ensures ComesFrom(w.procs[id], OutcomeOf(w, id, act).p, act)
  {
    match act
    case RefuseRoot | RefusalRead(_) | RefusalWrite(_) | TakePipe | WriteStarted(_) | StartAccepting =>
      TakingComesFrom(w, id, act);
    case ListenerFails | StopVerb | BeginHandOver | CancelAfterHandOver | Notice(_) => ServingComesFrom(w, id, act);
    case MarkRead(t, read) => ReadingComesFrom(w, id, t, read);
    case MarkWrite(t, ok) => WritingComesFrom(w, id, t, ok);
    case LeaveLoop | Throw | ReleasePipe | FinallyMark => LeavingComesFrom(w, id, act);
    case DisposeThrows | Return | WindowsEnds | Crash => LastComesFrom(w, id, act);
  }

  /** A second notice is not told while the mark of the first is under way: only its own reads and writes carry
  a marking on. */
  lemma NoticesDoNotOverlap(w: World, id: Id, act: Act)
    requires Inv(w) && Enabled(w, By(id, act)) && (w.procs[id].window.Asked? || w.procs[id].window.Read?)
    ensures OutcomeOf(w, id, act).p.window == w.procs[id].window || act.MarkRead? || act.MarkWrite?
  {
    assert WellFormed(w.procs[id]);
    ActComesFrom(w, id, act);
  }

  /** The record is as it was, or the act wrote it. */
  lemma ActRecord(w: World, id: Id, act: Act)
    requires Enabled(w, By(id, act)) && OwnMarkings(id, w.procs[id])
    ensures var p, record := w.procs[id], OutcomeOf(w, id, act).record;
      || record == w.record
      || (act == WriteStarted(true) && record == Some(Record(id, None)))
      || (act == RefusalWrite(true) && p.pc.RefusalPending? && record == Some(Record(id, Some(Refused))))
      || (act.MarkWrite? && MarkingOf(p, act.thread).Read?
          && record == Some(Record(id, Some(MarkingOf(p, act.thread).how))))
  {
  }

  lemma TellsOn(es: seq<Event>, id: Id, p: Process, q: Process, act: Act)
    requires ProcessTells(es, id, p) && ComesFrom(p, q, act)
    ensures ProcessTells(es + [By(id, act)], id, q)
  {
    MoreProcess(es, By(id, act), id, p);
    assert By(id, act) in es + [By(id, act)];
    if q.main.Asked? || q.main.Read? {
      assert Under(q.main, q.main.how);
    }
    if q.handOver.Asked? || q.handOver.Read? {
      assert Under(q.handOver, q.handOver.how);
    }
    if q.window.Asked? || q.window.Read? {
      assert Under(q.window, q.window.how);
    }
  }

  lemma ActTells(es: seq<Event>, w: World, id: Id, act: Act)
    requires Inv(w) && Tells(es, w) && Enabled(w, By(id, act))
    ensures ProcessTells(es + [By(id, act)], id, OutcomeOf(w, id, act).p)
  {
    assert ProcessTells(es, id, w.procs[id]) && WellFormed(w.procs[id]);
    ActComesFrom(w, id, act);
    TellsOn(es, id, w.procs[id], OutcomeOf(w, id, act).p, act);
  }

  lemma ActRecordTells(es: seq<Event>, w: World, id: Id, act: Act)
    requires Inv(w) && Tells(es, w) && Enabled(w, By(id, act))
    ensures var record := OutcomeOf(w, id, act).record;
      record.Some? ==> RecordTells(es + [By(id, act)], record.value)
  {
    var e := By(id, act);
    ActRecord(w, id, act);
    MoreProcess(es, e, id, w.procs[id]);
    assert e in es + [e];
    if w.record.Some? {
      MoreRecord(es, e, w.record.value);
    }
    if act.MarkWrite? && MarkingOf(w.procs[id], act.thread).Read? {
      assert MarkingTells(es + [e], id, MarkingOf(w.procs[id], act.thread));
    }
  }

  lemma RestTells(es: seq<Event>, w: World, e: Event)
    requires Tells(es, w)
    ensures Tells(es + [e], w)
  {
    forall q | q in w.procs ensures ProcessTells(es + [e], q, w.procs[q]) {
      MoreProcess(es, e, q, w.procs[q]);
    }
    if w.record.Some? {
      MoreRecord(es, e, w.record.value);
    }
    forall n | n in w.relays ensures RecordTells(es + [e], w.relays[n]) {
      MoreRecord(es, e, w.relays[n]);
    }
  }

  lemma StepTells(es: seq<Event>, w: World, e: Event)
    requires Inv(w) && Tells(es, w) && Enabled(w, e)
    ensures Tells(es + [e], Step(w, e))
  {
    RestTells(es, w, e);
    match e
    case By(id, act) =>
      ActTells(es, w, id, act);
      ActRecordTells(es, w, id, act);
    case Spawn(_, _) =>
    case Person(n, move) => StartTells(es, w, n, move);
    case RelayReads(_, _) =>
    case RelayWrites(_, _) =>
  }

  lemma StartTells(es: seq<Event>, w: World, n: nat, move: Move)
    requires Tells(es + [Person(n, move)], w) && Enabled(w, Person(n, move))
    ensures Tells(es + [Person(n, move)], Step(w, Person(n, move)))
  {
  }

  lemma {:induction false} RunTells(before: seq<Event>, w: World, es: seq<Event>)
    requires Inv(w) && Tells(before, w) && IsRun(w, es)
    ensures Tells(before + es, After(w, es))
    decreases |es|
  {
    if es == [] {
      assert before + [] == before;
    } else {
      StepTells(before, w, es[0]);
      InvStep(w, es[0]);
      RunTells(before + [es[0]], Step(w, es[0]), es[1..]);
      assert before + [es[0]] + es[1..] == before + es;
    }
  }

  /** The record's mark tells what happened: a mark as stopped, that the process was asked to stop; as updated,
  that its hand-over began; as refused, that its root was; as ended by the session or by the End command,
  that its window heard that very notice. A record with no mark tells that it was written as started. */
  lemma TheMarkTellsWhatHappened(es: seq<Event>)
    requires IsRun(INIT, es)
    ensures var w := After(INIT, es);
      w.record.Some? ==>
        match w.record.value.ended
        case None => By(w.record.value.who, WriteStarted(true)) in es
        case Some(Stopped) => By(w.record.value.who, StopVerb) in es
        case Some(Update) => By(w.record.value.who, BeginHandOver) in es
        case Some(Refused) => By(w.record.value.who, RefuseRoot) in es
        case Some(how) => By(w.record.value.who, Notice(how)) in es
  {
    assert Tells([], INIT);
    RunTells([], INIT, es);
    assert [] + es == es;
  }

  /** A background that returned with its hand-over's mark still to make was asked to stop as well: of itself a
  hand-over cancels only once its mark is over. */
  lemma OnlyAStopLeavesAHandOver(es: seq<Event>, q: Id)
    requires IsRun(INIT, es) && q in After(INIT, es).procs
    requires var p := After(INIT, es).procs[q]; p.death.Returned? && (p.handOver.Asked? || p.handOver.Read?)
    ensures By(q, StopVerb) in es
  {
    assert Tells([], INIT);
    RunTells([], INIT, es);
    InvRun(INIT, es);
    assert [] + es == es;
    assert WellFormed(After(INIT, es).procs[q]);
  }

  // ----- persons' starts -----

  /** The process holds the pipe, has been told to accept, and serves. */
  ghost predicate HandsOut(w: World, h: Id) {
    && w.pipe == Some(h) && h in w.procs && HoldsPc(w.procs[h])
    && w.procs[h].listening && w.procs[h].state == Serving
  }

  /** Only its own moves change what a start has come to. */
  lemma OwnMovesOnly(w: World, e: Event, n: nat)
    requires Enabled(w, e) && !(e.Person? && e.n == n)
    ensures n in Step(w, e).persons <==> n in w.persons
    ensures n in w.persons ==> Step(w, e).persons[n] == w.persons[n]
  {
  }

  lemma OwnMove(w: World, n: nat, move: Move)
    requires Enabled(w, Person(n, move))
    ensures n in Step(w, Person(n, move)).persons && Step(w, Person(n, move)).persons[n] == PersonAfter(w, n, move)
  {
  }

  lemma AnswersShow(w: World, n: nat, move: Move, h: Id)
    requires Enabled(w, Person(n, move))
    ensures PersonAfter(w, n, move) == Shown(h) <==> move == AskAnswered && w.pipe == Some(h)
    ensures move == AskAnswered && w.pipe == Some(h) ==>
      h in w.procs && w.procs[h].listening && w.procs[h].state == Serving
  {
  }

  /** A start is shown a page by the answer of the process that then holds the pipe and serves, and by nothing
  else. */
  lemma ShownByAnAnswer(w: World, e: Event, n: nat, h: Id)
    requires Inv(w) && Enabled(w, e)
    requires !(n in w.persons && w.persons[n] == Shown(h))
    ensures n in Step(w, e).persons && Step(w, e).persons[n] == Shown(h) <==>
      e == Person(n, AskAnswered) && w.pipe == Some(h)
    ensures e == Person(n, AskAnswered) && w.pipe == Some(h) ==> HandsOut(w, h)
  {
    if e.Person? && e.n == n {
      OwnMove(w, n, e.move);
      AnswersShow(w, n, e.move, h);
    } else {
      OwnMovesOnly(w, e, n);
    }
  }

  /** A refusal comes only from a process that holds the pipe and has been told to accept, and silence only from
  one that holds it. */
  lemma OnlyAHolderRefuses(w: World, n: nat)
    requires Inv(w)
    ensures Enabled(w, Person(n, AskRefused)) ==>
      w.pipe.Some? && w.pipe.value in w.procs && HoldsPc(w.procs[w.pipe.value]) && w.procs[w.pipe.value].listening
    ensures forall known :: Enabled(w, Person(n, AskNoAnswer(known))) ==>
      w.pipe.Some? && w.pipe.value in w.procs && HoldsPc(w.procs[w.pipe.value])
  {
  }

  /** A start that was shown its page, or that is not shown one, is over. */
  lemma {:induction false} OverIsOver(w: World, es: seq<Event>, n: nat)
    requires n in w.persons && (w.persons[n].Shown? || w.persons[n].NotShown?) && IsRun(w, es)
    ensures n in After(w, es).persons && After(w, es).persons[n] == w.persons[n]
    decreases |es|
  {
    if es != [] {
      OverStays(w, es[0], n);
      OverIsOver(Step(w, es[0]), es[1..], n);
    }
  }

  lemma OverStays(w: World, e: Event, n: nat)
    requires n in w.persons && (w.persons[n].Shown? || w.persons[n].NotShown?) && Enabled(w, e)
    ensures n in Step(w, e).persons && Step(w, e).persons[n] == w.persons[n]
  {
    assert !(e.Person? && e.n == n);
    OwnMovesOnly(w, e, n);
  }

  /** A start that is refused is not shown a page, then or later. */
  lemma RefusedForGood(w: World, n: nat, es: seq<Event>)
    requires Enabled(w, Person(n, AskRefused)) && IsRun(Step(w, Person(n, AskRefused)), es)
    ensures var t := After(Step(w, Person(n, AskRefused)), es);
      n in t.persons && t.persons[n] == NotShown
  {
    OverIsOver(Step(w, Person(n, AskRefused)), es, n);
  }

  /** At the i-th event of the run the process handed a page out to the start. */
  ghost predicate HandedOut(w: World, es: seq<Event>, n: nat, h: Id, i: nat) {
    i < |es| && es[i] == Person(n, AskAnswered) && IsRun(w, es[..i]) && HandsOut(After(w, es[..i]), h)
  }

  /** Over every run: a start that was shown a page had an answer, from a process that at that moment held the
  pipe, had been told to accept, and served. */
  lemma {:induction false} ShownWasHandedOut(w: World, es: seq<Event>, n: nat, h: Id) returns (i: nat)
    requires Inv(w) && IsRun(w, es)
    requires !(n in w.persons && w.persons[n].Shown?)
    requires n in After(w, es).persons && After(w, es).persons[n] == Shown(h)
    ensures HandedOut(w, es, n, h, i)
    decreases |es|
  {
    var w' := Step(w, es[0]);
    InvStep(w, es[0]);
    if n in w'.persons && w'.persons[n].Shown? {
      ShownByAnAnswer(w, es[0], n, w'.persons[n].answerer);
      OverIsOver(w', es[1..], n);
      i := 0;
      assert es[..0] == [];
    } else {
      i := ShownWasHandedOut(w', es[1..], n, h);
      i := i + 1;
      LaterInTheRun(w, es, n, h, i);
    }
  }

  lemma LaterInTheRun(w: World, es: seq<Event>, n: nat, h: Id, i: nat)
    requires i > 0 && es != [] && Enabled(w, es[0]) && HandedOut(Step(w, es[0]), es[1..], n, h, i - 1)
    ensures HandedOut(w, es, n, h, i)
  {
    assert es[..i][0] == es[0] && es[..i][1..] == es[1..][..i - 1];
  }
}
