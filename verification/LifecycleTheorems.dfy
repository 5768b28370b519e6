/** The claims about every run of the lifecycle protocol, and the runs that show how far they go. */
module LifecycleTheorems {
  import opened Wrappers
  import opened Lifecycle
  import opened LifecycleInvariants

  /** Any run, with awaits that interleave freely; a run whose read-check-writes of the record are
  indivisible; and such a run in which moreover no refusal is written after a read that failed. */
  datatype Runs = Any | Whole | WholeAndRead

  /** The worlds a run of the protocol comes to. */
  ghost predicate Reachable(w: World, runs: Runs) {
    exists es: seq<Event> :: Leads(es, w, runs)
  }

  ghost predicate Leads(es: seq<Event>, w: World, runs: Runs) {
    && IsRun(INIT, es) && After(INIT, es) == w
    && (runs.Any? || IsIndivisible(INIT, es))
    && (runs.WholeAndRead? ==> IsRead(INIT, es))
  }

  lemma ReachableInv(w: World, runs: Runs)
    requires Reachable(w, runs)
    ensures Inv(w)
  {
    var es :| Leads(es, w, runs);
    InvRun(INIT, es);
  }

  lemma {:induction false} Extend(w: World, es: seq<Event>, e: Event)
    requires IsRun(w, es) && Enabled(After(w, es), e)
    ensures IsRun(w, es + [e]) && After(w, es + [e]) == Step(After(w, es), e)
    ensures IsIndivisible(w, es) && Fresh(After(w, es), e) ==> IsIndivisible(w, es + [e])
    ensures IsRead(w, es) && !WritesUnread(After(w, es), e) ==> IsRead(w, es + [e])
    decreases |es|
  {
    if es == [] {
      assert [e][1..] == [];
    } else {
      assert (es + [e])[1..] == es[1..] + [e];
      Extend(Step(w, es[0]), es[1..], e);
    }
  }

  lemma Nothing(runs: Runs) returns (w: World)
    ensures w == INIT && Reachable(w, runs)
  {
    w := INIT;
    assert Leads([], INIT, runs);
  }

  /** One more step of a run. */
  lemma Go(w: World, e: Event, runs: Runs) returns (w': World)
    requires Reachable(w, runs) && Enabled(w, e) && (runs.Any? || Fresh(w, e))
        && (runs.WholeAndRead? ==> !WritesUnread(w, e))
    ensures w' == Step(w, e) && Reachable(w', runs)
  {
    var es :| Leads(es, w, runs);
    Extend(INIT, es, e);
    w' := Step(w, e);
    assert Leads(es + [e], w', runs);
  }

  // ----- one background -----

  /** At most one process holds the pipe, and it is the one the pipe's name leads to. */
  lemma OneHolder(w: World, p: Id, q: Id)
    requires Reachable(w, Any)
    requires p in w.procs && q in w.procs && HoldsPc(w.procs[p]) && HoldsPc(w.procs[q])
    ensures p == q && w.pipe == Some(p)
  {
    ReachableInv(w, Any);
  }

  /** A start that met a taken pipe is gone at once, and neither it nor anything else ever writes its name. */
  lemma LoserNeverWrites(w: World, q: Id)
    requires Reachable(w, Any) && q in w.procs && w.procs[q].pc.LostPipe?
    ensures q !in w.wrote && !Names(w.record, q)
    ensures !w.procs[q].tried && !Marked(w.procs[q])
  {
    ReachableInv(w, Any);
    assert WellFormed(w.procs[q]);
  }

  // ----- the record of the holder -----

  predicate WritesRecord(e: Event) {
    match e
    case By(_, RefusalWrite(ok)) => ok
    case By(_, WriteStarted(ok)) => ok
    case By(_, MarkWrite(_, ok)) => ok
    case Person(_, ClearWrite) => true
    case Person(_, EndClear) => true
    case RelayWrites(_, ok) => ok
    case _ => false
  }

  /** The record names the live holder of the pipe, and an event that is not the holder's own takes that away. */
  predicate Spoils(w: World, e: Event)
    requires Enabled(w, e)
  {
    && w.pipe.Some? && Names(w.record, w.pipe.value)
    && !(e.By? && e.id == w.pipe.value)
    && !Names(Step(w, e).record, w.pipe.value)
  }

  /** What an event that is not the holder's can do to the holder's record. */
  ghost predicate SpoilsOnlySo(w: World, e: Event)
    requires Enabled(w, e)
  {
    && (Spoils(w, e) <==> WritesRecord(e))
    && (WritesRecord(e) ==> !Fresh(w, e) || WritesUnread(w, e))
    && (!WritesRecord(e) ==> Step(w, e).record == w.record)
  }

  lemma OtherActsKeepTheRecord(w: World, id: Id, act: Act)
    requires Enabled(w, By(id, act)) && !WritesRecord(By(id, act))
    ensures Step(w, By(id, act)).record == w.record
  {
  }

  lemma AnothersWrite(w: World, id: Id, act: Act)
    requires Facts(w, id) && Enabled(w, By(id, act)) && WritesRecord(By(id, act))
    requires w.pipe.Some? && IsAlive(w, w.pipe.value) && Names(w.record, w.pipe.value) && id != w.pipe.value
    ensures Names(Step(w, By(id, act)).record, id)
    ensures !Fresh(w, By(id, act)) || WritesUnread(w, By(id, act))
  {
    assert !act.WriteStarted?;
  }

  lemma AnothersActSpoils(w: World, id: Id, act: Act)
    requires Inv(w) && Enabled(w, By(id, act))
    requires w.pipe.Some? && Names(w.record, w.pipe.value) && id != w.pipe.value
    ensures SpoilsOnlySo(w, By(id, act))
  {
    assert HoldsPc(w.procs[w.pipe.value]);
    if WritesRecord(By(id, act)) {
      FactsOf(w, id);
      AnothersWrite(w, id, act);
    } else {
      OtherActsKeepTheRecord(w, id, act);
    }
  }

  lemma AStartsMoveSpoils(w: World, n: nat, move: Move)
    requires Inv(w) && Enabled(w, Person(n, move))
    requires w.pipe.Some? && Names(w.record, w.pipe.value)
    ensures SpoilsOnlySo(w, Person(n, move))
  {
    FactsOf(w, w.pipe.value);
    if n in w.persons {
      assert SnapshotOk(w, w.persons[n]);
    }
  }

  lemma ARelaySpoils(w: World, e: Event)
    requires Inv(w) && Enabled(w, e) && (e.RelayReads? || e.RelayWrites?)
    requires w.pipe.Some? && Names(w.record, w.pipe.value)
    ensures SpoilsOnlySo(w, e)
  {
    assert HoldsPc(w.procs[w.pipe.value]);
    if e.RelayWrites? {
      assert RelayOk(w, w.relays[e.n]);
    }
  }

  /** Exactly the writes of others spoil the holder's record, and each of them acts on a stale read or
  records a refusal after a read that failed. */
  lemma OnlyStaleWritesSpoil(w: World, e: Event)
    requires Reachable(w, Any) && Enabled(w, e)
    requires w.pipe.Some? && Names(w.record, w.pipe.value) && !(e.By? && e.id == w.pipe.value)
    ensures Spoils(w, e) <==> WritesRecord(e)
    ensures WritesRecord(e) ==> !Fresh(w, e) || WritesUnread(w, e)
    ensures !WritesRecord(e) ==> Step(w, e).record == w.record
  {
    ReachableInv(w, Any);
    match e
    case By(id, act) => AnothersActSpoils(w, id, act);
    case Person(n, move) => AStartsMoveSpoils(w, n, move);
    case RelayReads(_, _) => ARelaySpoils(w, e);
    case RelayWrites(_, _) => ARelaySpoils(w, e);
    case Spawn(_, _) =>
  }

  /** The holder's own writes keep its name in the record. */
  ghost predicate HolderNamed(w: World) {
    w.pipe.Some? && w.pipe.value in w.procs && w.procs[w.pipe.value].started ==> Names(w.record, w.pipe.value)
  }

  lemma HolderNamesItself(w: World, id: Id, act: Act)
    requires Facts(w, id) && MayAct(w, w.procs[id], act) && HolderNamed(w)
    requires OutcomeOf(w, id, act).pipe == Some(id) && OutcomeOf(w, id, act).p.started
    ensures Names(OutcomeOf(w, id, act).record, id)
  {
    ActIsLocal(w, id, act);
    if !w.procs[id].started {
      assert act.WriteStarted?;
    } else {
      assert w.pipe == Some(id);
    }
  }

  lemma ActKeepsHolderNamed(w: World, id: Id, act: Act)
    requires Reachable(w, Any) && Enabled(w, By(id, act)) && HolderNamed(w)
    requires Fresh(w, By(id, act)) && !WritesUnread(w, By(id, act))
    ensures HolderNamed(Step(w, By(id, act)))
  {
    ReachableInv(w, Any);
    FactsOf(w, id);
    ActIsLocal(w, id, act);
    var o := OutcomeOf(w, id, act);
    if o.pipe == Some(id) {
      if o.p.started {
        HolderNamesItself(w, id, act);
      }
    } else if w.pipe.Some? && w.pipe.value != id && Names(w.record, w.pipe.value) {
      OnlyStaleWritesSpoil(w, By(id, act));
    }
  }

  lemma OthersKeepHolderNamed(w: World, e: Event)
    requires Reachable(w, Any) && Enabled(w, e) && !e.By? && HolderNamed(w)
    requires Fresh(w, e)
    ensures HolderNamed(Step(w, e))
  {
    ReachableInv(w, Any);
    OthersLeaveTheHolder(w, e);
    if w.pipe.Some? && Names(w.record, w.pipe.value) {
      OnlyStaleWritesSpoil(w, e);
    }
  }

  /** A holder that an event of a start, a relay or a new process leaves is the holder it found. */
  lemma OthersLeaveTheHolder(w: World, e: Event)
    requires Inv(w) && Enabled(w, e) && !e.By?
    ensures var w' := Step(w, e);
      w'.pipe.Some? ==>
        && w'.pipe == w.pipe && w.pipe.value in w.procs
        && w'.procs[w.pipe.value].started == w.procs[w.pipe.value].started
  {
  }

  lemma HolderNamedStep(w: World, e: Event)
    requires Reachable(w, Any) && Enabled(w, e) && HolderNamed(w)
    requires Fresh(w, e) && !WritesUnread(w, e)
    ensures HolderNamed(Step(w, e))
  {
    if e.By? {
      ActKeepsHolderNamed(w, e.id, e.act);
    } else {
      OthersKeepHolderNamed(w, e);
    }
  }

  lemma {:induction false} HolderNamedRun(w: World, es: seq<Event>)
    requires Reachable(w, Any) && HolderNamed(w) && IsRun(w, es) && IsIndivisible(w, es) && IsRead(w, es)
    ensures HolderNamed(After(w, es))
    decreases |es|
  {
    if es != [] {
      HolderNamedStep(w, es[0]);
      var w' := Go(w, es[0], Any);
      HolderNamedRun(w', es[1..]);
    }
  }

  /** With indivisible record operations, and no refusal written unread, the record names the holder from its
  successful "started" write for as long as it holds the pipe. */
  lemma RecordNamesTheHolder(w: World)
    requires Reachable(w, WholeAndRead)
    requires w.pipe.Some? && w.pipe.value in w.procs && w.procs[w.pipe.value].started
    ensures Names(w.record, w.pipe.value)
  {
    var es :| Leads(es, w, WholeAndRead);
    var init := Nothing(Any);
    HolderNamedRun(init, es);
  }

  /** Whoever handed out a page had tried its "started" write; and in such a run
  a write that succeeded is still what the record says while that process holds the pipe. */
  lemma ShownMeansRecorded(w: World, n: nat)
    requires Reachable(w, Any) && n in w.persons && w.persons[n].Shown?
    ensures var h := w.persons[n].answerer;
            && h in w.procs && w.procs[h].tried
            && (Reachable(w, WholeAndRead) && w.pipe == Some(h) && w.procs[h].started ==> Names(w.record, h))
  {
    ReachableInv(w, Any);
    assert PersonKnows(w, w.persons[n]);
    if Reachable(w, WholeAndRead) && w.pipe == Some(w.persons[n].answerer) && w.procs[w.persons[n].answerer].started {
      RecordNamesTheHolder(w);
    }
  }

  // ----- crash detection -----

  ghost predicate HandOverInFlight(p: Process) {
    p.main.Idle? && (p.handOver.Asked? || p.handOver.Read?)
  }

  /** A background that the record calls crashed ended by no stop, update or session end, unless the
  record could not be read or written for a mark of it, or it returned while its update hand-over still
  had its mark to make, or Windows ended it with no notice or before the notice's mark was over. */
  lemma CrashReadingIsRight(w: World, q: Id)
    requires Reachable(w, Any) && ReadsAsCrash(w, q)
    ensures q in w.procs && w.procs[q].started && !Marked(w.procs[q])
    ensures var p := w.procs[q];
      || p.death.Crashed? || p.death.Killed? || p.death.Threw?
      || Failed(p.main) || Failed(p.handOver) || Failed(p.window)
      || (p.death.Returned? && HandOverInFlight(p))
      || (p.death.WindowsEnded? && (p.window.Idle? || p.window.Asked? || p.window.Read?))
  {
    ReachableInv(w, Any);
    assert q in w.wrote;
    assert WellFormed(w.procs[q]);
  }

  /** Of a process that returned and that the record names, the record reads as a crash exactly when its
  stop and its hand-over each left no mark, because it was not made or because a read or a write of the
  record failed, and no notice of its window left one. */
  lemma ReturnReadsAsCrash(w: World, q: Id)
    requires Reachable(w, Any) && q in w.procs && w.procs[q].death.Returned?
    requires Names(w.record, q) && w.procs[q].started
    ensures var p := w.procs[q];
      ReadsAsCrash(w, q) <==> (p.main.Idle? || Failed(p.main)) && Missing(p.handOver) && !p.windowMarked
  {
    ReachableInv(w, Any);
    assert WellFormed(w.procs[q]);
  }

  /** Where no read and no write failed, that is exactly when the hand-over still had its mark to make: the
  mark of a stop is skipped once the state says Updating. */
  lemma WithoutFailuresOnlyAHandOverDoes(w: World, q: Id)
    requires Reachable(w, Any) && q in w.procs && w.procs[q].death.Returned?
    requires Names(w.record, q) && w.procs[q].started
    requires !Failed(w.procs[q].main) && !Failed(w.procs[q].handOver)
    ensures ReadsAsCrash(w, q) <==> HandOverInFlight(w.procs[q]) && !w.procs[q].windowMarked
  {
    ReturnReadsAsCrash(w, q);
    ReachableInv(w, Any);
    assert WellFormed(w.procs[q]);
  }

  /** Of a process that Windows ended, exactly when its last notice left no mark, because it had no window
  that heard one, or the mark was still under way, or a read or a write of the record failed, and no mark of
  it was written before. */
  lemma WindowsEndReadsAsCrash(w: World, q: Id)
    requires Reachable(w, Any) && q in w.procs && w.procs[q].death.WindowsEnded?
    requires Names(w.record, q) && w.procs[q].started
    ensures var p := w.procs[q];
      ReadsAsCrash(w, q) <==>
        && (p.window.Idle? || p.window.Asked? || p.window.Read? || Failed(p.window))
        && !Marked(p)
  {
    ReachableInv(w, Any);
    assert WellFormed(w.procs[q]);
  }

  /** A record that names a process is marked exactly when that process got one of its marks written,
  or refused its root. */
  lemma MarkedMeansMarked(w: World)
    requires Reachable(w, Any) && w.record.Some?
    ensures w.record.value.who in w.procs
    ensures var p := w.procs[w.record.value.who];
            && (w.record.value.ended.None? <==> p.started && !Marked(p))
            && (w.record.value.ended == Some(Refused) <==> !p.tried)
  {
    ReachableInv(w, Any);
    assert WellFormed(w.procs[w.record.value.who]);
  }

  datatype Cause = ClosedByUpdate | ClosedByStop | ClosedByFailure

  function WhySessionsClose(state: State): Cause {
    match state
    case Updating => ClosedByUpdate
    case Stopping => ClosedByStop
    case Serving => ClosedByFailure
  }

  /** Sessions are told that an update closed them exactly when a hand-over had begun, that a stop did exactly
  when only a stop had come, and that the background failed exactly when neither had, and then its serve
  threw. */
  lemma SessionsAreToldTheCause(w: World, q: Id)
    requires Reachable(w, Any) && q in w.procs
    requires w.procs[q].pc.Closing? || w.procs[q].pc.Disposing? || w.procs[q].pc.Ending?
    ensures var p, cause := w.procs[q], WhySessionsClose(w.procs[q].state);
            && (cause.ClosedByUpdate? <==> !p.handOver.Idle?)
            && (cause.ClosedByStop? <==> p.handOver.Idle? && p.cancelled)
            && (cause.ClosedByFailure? <==> p.handOver.Idle? && !p.cancelled)
            && (cause.ClosedByFailure? ==> p.threw)
  {
    ReachableInv(w, Any);
    assert WellFormed(w.procs[q]);
  }

  // ----- ending a hung background -----

  /** Every process a person's start ended had written the record of its own pid and creation time,
  its pid is the one the pipe reported, and it is the process that was asked exactly when it already
  existed at the ask. */
  lemma KillsAreRightful(w: World, i: nat)
    requires Reachable(w, Any) && i < |w.kills|
    ensures var k := w.kills[i];
            && k.target in w.wrote && k.target in w.procs && w.procs[k.target].death.Killed?
            && !w.procs[k.target].pc.Stranger? && !w.procs[k.target].pc.LostPipe?
            && k.target.pid == k.reported == k.asked.pid
            && (k.target == k.asked <==> k.target.created <= k.askedAt)
  {
    ReachableInv(w, Any);
    assert RightfulKill(w, w.kills[i]);
    assert WellFormed(w.procs[w.kills[i].target]);
  }

  // ----- how far the claims go -----

  const SERVING := FRESH_PROCESS.(pc := Accepting, tried := true, started := true, listening := true)
  const LEAVING := SERVING.(pc := Closing, state := Stopping, cancelled := true)

  lemma ABackgroundTakesThePipe(w: World, pid: nat, runs: Runs) returns (w': World)
    requires Reachable(w, runs) && w.pipe.None? && Enabled(w, Spawn(pid, true))
    ensures Reachable(w', runs)
    ensures w' == w.(now := w.now + 2, procs := w.procs[Id(pid, w.now) := FRESH_PROCESS.(pc := Holding)],
        pipe := Some(Id(pid, w.now)))
  {
    w' := Go(w, Spawn(pid, true), runs);
    w' := Go(w', By(Id(pid, w.now), TakePipe), runs);
  }

  lemma ItServes(w: World, q: Id, runs: Runs) returns (w': World)
    requires Reachable(w, runs) && q in w.procs && w.procs[q] == FRESH_PROCESS.(pc := Holding)
    ensures Reachable(w', runs)
    ensures w' == w.(now := w.now + 2, procs := w.procs[q := SERVING], record := Some(Record(q, None)),
        wrote := w.wrote + {q})
  {
    w' := Go(w, By(q, WriteStarted(true)), runs);
    w' := Go(w', By(q, StartAccepting), runs);
  }

  /** A background starts with nobody else there, up to accepting connections. */
  lemma ABackgroundStarts(w: World, pid: nat, runs: Runs) returns (w': World)
    requires Reachable(w, runs) && w.pipe.None? && Enabled(w, Spawn(pid, true))
    ensures Reachable(w', runs)
    ensures var q := Id(pid, w.now);
      w' == w.(now := w.now + 4, procs := w.procs[q := SERVING], pipe := Some(q), record := Some(Record(q, None)),
               wrote := w.wrote + {q})
  {
    w' := ABackgroundTakesThePipe(w, pid, runs);
    w' := ItServes(w', Id(pid, w.now), runs);
  }

  /** It is asked to stop and leaves its loop. */
  lemma ItLeavesItsLoop(w: World, q: Id, runs: Runs) returns (w': World)
    requires Reachable(w, runs) && q in w.procs && w.procs[q] == SERVING
    ensures Reachable(w', runs)
    ensures w' == w.(now := w.now + 2, procs := w.procs[q := LEAVING])
  {
    w' := Go(w, By(q, StopVerb), runs);
    w' := Go(w', By(q, LeaveLoop), runs);
  }

  const MARKING := LEAVING.(pc := Ending, main := Asked(Stopped))

  /** It releases the pipe and comes to mark its stop. */
  lemma ItComesToItsMark(w: World, q: Id, runs: Runs) returns (w': World)
    requires Reachable(w, runs) && q in w.procs && w.procs[q] == LEAVING && w.pipe == Some(q)
    ensures Reachable(w', runs)
    ensures w' == w.(now := w.now + 2, pipe := None, procs := w.procs[q := MARKING])
  {
    w' := Go(w, By(q, ReleasePipe), runs);
    w' := Go(w', By(q, FinallyMark), runs);
  }

  function AtItsRead(w: World, read: bool): Marking
    requires w.record.Some?
  {
    if read then Read(Stopped, w.record.value) else Done(ReadFailed)
  }

  /** It reads the record it is about to mark, or fails to. */
  lemma ItReadsItsRecord(w: World, q: Id, read: bool, runs: Runs) returns (w': World)
    requires Reachable(w, runs) && q in w.procs && w.procs[q] == MARKING && Names(w.record, q)
    ensures Reachable(w', runs)
    ensures w' == w.(now := w.now + 1,
                     procs := w.procs[q := MARKING.(main := AtItsRead(w, read))])
  {
    w' := Go(w, By(q, MarkRead(Main, read)), runs);
  }

  const HANDING_OVER := LEAVING.(state := Updating, handOver := Asked(Update))

  lemma AHandOverBegins(w: World, q: Id, runs: Runs) returns (w': World)
    requires Reachable(w, runs) && q in w.procs && w.procs[q] == LEAVING
    ensures Reachable(w', runs)
    ensures w' == w.(now := w.now + 1, procs := w.procs[q := HANDING_OVER])
  {
    w' := Go(w, By(q, BeginHandOver), runs);
  }

  /** It leaves all the same, with no mark of a stop to make. */
  lemma ItLeavesDuringAHandOver(w: World, q: Id, runs: Runs) returns (w': World)
    requires Reachable(w, runs) && q in w.procs && w.procs[q] == HANDING_OVER && w.pipe == Some(q)
    ensures Reachable(w', runs)
    ensures w' == w.(now := w.now + 2, pipe := None, procs := w.procs[q := HANDING_OVER.(pc := Ending)])
  {
    w' := Go(w, By(q, ReleasePipe), runs);
    w' := Go(w', By(q, FinallyMark), runs);
  }

  lemma ItReturns(w: World, q: Id, runs: Runs) returns (w': World)
    requires Reachable(w, runs) && IsAlive(w, q) && w.pipe != Some(q)
    requires var p := w.procs[q]; p.pc.Ending? && !p.threw && (p.main.Idle? || p.main.Done?)
    ensures Reachable(w', runs)
    ensures w' == w.(now := w.now + 1, procs := w.procs[q := w.procs[q].(death := Returned)])
  {
    w' := Go(w, By(q, Return), runs);
  }

  /** Its window hears a notice, and it reads its record to mark it. */
  lemma ANoticeIsHeard(w: World, q: Id, how: End, runs: Runs) returns (w': World)
    requires Reachable(w, runs) && q in w.procs && w.procs[q] == SERVING && Names(w.record, q)
    requires how.SessionEnding? || how.EndCommand?
    ensures Reachable(w', runs)
    ensures w' == w.(now := w.now + 2, procs := w.procs[q := SERVING.(window := Read(how, w.record.value))])
  {
    w' := Go(w, By(q, Notice(how)), runs);
    w' := Go(w', By(q, MarkRead(Window, true)), runs);
  }

  lemma WindowsEndsIt(w: World, q: Id, runs: Runs) returns (w': World)
    requires Reachable(w, runs) && IsAlive(w, q)
    ensures Reachable(w', runs)
    ensures w' == w.(now := w.now + 1, procs := w.procs[q := w.procs[q].(death := WindowsEnded)],
                     pipe := if w.pipe == Some(q) then None else w.pipe)
  {
    w' := Go(w, By(q, WindowsEnds), runs);
  }

  lemma ItCrashes(w: World, q: Id, runs: Runs) returns (w': World)
    requires Reachable(w, runs) && q in w.procs && w.procs[q] == SERVING && w.pipe == Some(q)
    ensures Reachable(w', runs)
    ensures w' == w.(now := w.now + 1, pipe := None, procs := w.procs[q := SERVING.(death := Crashed)])
  {
    w' := Go(w, By(q, Crash), runs);
  }

  /** A relay finds it gone and reads its record. */
  lemma ARelayReads(w: World, n: nat, q: Id, runs: Runs) returns (w': World)
    requires Reachable(w, runs) && n !in w.relays && q in w.procs && ReadsAsCrash(w, q)
    ensures Reachable(w', runs)
    ensures w' == w.(now := w.now + 1, relays := w.relays[n := w.record.value])
  {
    w' := Go(w, RelayReads(n, q), runs);
  }

  lemma AStartFindsNobody(w: World, n: nat, runs: Runs) returns (w': World)
    requires Reachable(w, runs) && n !in w.persons
    ensures Reachable(w', runs)
    ensures w' == w.(now := w.now + 2, persons := w.persons[n := Clearing])
  {
    w' := Go(w, Person(n, Begin), runs);
    w' := Go(w', Person(n, AskNobody), runs);
  }

  /** A person's start reads a recorded crash. */
  lemma ACrashIsRead(w: World, n: nat, runs: Runs) returns (w': World)
    requires Reachable(w, runs) && n in w.persons && w.persons[n].Clearing?
    requires w.record.Some? && ReadsAsCrash(w, w.record.value.who)
    ensures Reachable(w', runs)
    ensures w' == w.(now := w.now + 1, persons := w.persons[n := ClearPending(w.record.value)])
  {
    w' := Go(w, Person(n, ClearRead(true)), runs);
  }

  /** A person's start asks the holder, whose connection closes without an answer. */
  lemma NoAnswerComes(w: World, n: nat, runs: Runs) returns (w': World)
    requires Reachable(w, runs) && n !in w.persons && w.pipe.Some?
    ensures Reachable(w', runs)
    ensures w' == w.(now := w.now + 2, persons := w.persons[n := Hung(w.pipe.value, Some(w.pipe.value.pid), w.now + 1)])
  {
    w' := Go(w, Person(n, Begin), runs);
    w' := Go(w', Person(n, AskNoAnswer(true)), runs);
  }

  /** It reads the record, which names the pid it was reported. */
  lemma ItFindsItsVictim(w: World, n: nat, who: Id, runs: Runs) returns (w': World)
    requires Reachable(w, runs) && n in w.persons && w.persons[n].Hung? && w.persons[n].reported == Some(who.pid)
    requires w.record == Some(Record(who, None))
    ensures Reachable(w', runs)
    ensures var h := w.persons[n];
      w' == w.(now := w.now + 1, persons := w.persons[n := EndPending(h.asked, who.pid, h.askedAt, Record(who, None))])
  {
    w' := Go(w, Person(n, EndRead(true, true)), runs);
  }

  /** And ends it. */
  lemma ItEndsItsVictim(w: World, n: nat, who: Id, runs: Runs) returns (w': World)
    requires Reachable(w, runs) && n in w.persons
    requires w.persons[n].EndPending? && w.persons[n].victim == Record(who, None)
    requires IsAlive(w, who) && w.pipe == Some(who)
    ensures Reachable(w', runs)
    ensures var h := w.persons[n];
      w' == w.(now := w.now + 2, pipe := None, procs := w.procs[who := w.procs[who].(death := Killed)],
               persons := w.persons[n := ClearAfterEnd(h.victim)],
               kills := w.kills + [Kill(who, h.asked, h.pid, h.askedAt, w.now)])
  {
    w' := Go(w, Person(n, EndKill(true)), runs);
  }

  /** Between the read and the clear of a recorded crash another background can start: the clear then
  takes the record of the one that serves. */
  lemma AStaleClearSpoils() returns (w: World, e: Event)
    ensures Reachable(w, Any) && Enabled(w, e) && Spoils(w, e) && e.Person? && e.move.ClearWrite?
  {
    w := Nothing(Any);
    w := ABackgroundStarts(w, 1, Any);
    w := ItCrashes(w, Id(1, 0), Any);
    w := AStartFindsNobody(w, 0, Any);
    w := ACrashIsRead(w, 0, Any);
    w := ABackgroundStarts(w, 2, Any);
    e := Person(0, ClearWrite);
  }

  /** A stopping background marks its record after it released the pipe: between its read and its write
  the next background can start, and the mark then replaces the record of the one that serves. */
  lemma AStaleMarkSpoils() returns (w: World, e: Event)
    ensures Reachable(w, Any) && Enabled(w, e) && Spoils(w, e) && e.By? && e.act.MarkWrite?
  {
    var a := Id(1, 0);
    w := Nothing(Any);
    w := ABackgroundStarts(w, 1, Any);
    w := ItLeavesItsLoop(w, a, Any);
    w := ItComesToItsMark(w, a, Any);
    w := ItReadsItsRecord(w, a, true, Any);
    w := ABackgroundStarts(w, 2, Any);
    e := By(a, MarkWrite(Main, true));
  }

  /** A stop and an update hand-over at once: the background returns, and its record reads as a crash,
  even with indivisible record operations that all succeed. */
  lemma AStopDuringAHandOverReadsAsCrash() returns (w: World, q: Id)
    ensures Reachable(w, WholeAndRead) && q in w.procs && w.procs[q].death.Returned?
    ensures ReadsAsCrash(w, q) && HandOverInFlight(w.procs[q])
  {
    q := Id(1, 0);
    w := Nothing(WholeAndRead);
    w := ABackgroundStarts(w, 1, WholeAndRead);
    w := ItLeavesItsLoop(w, q, WholeAndRead);
    w := AHandOverBegins(w, q, WholeAndRead);
    w := ItLeavesDuringAHandOver(w, q, WholeAndRead);
    w := ItReturns(w, q, WholeAndRead);
  }

  /** A stop whose read of its own record fails: the background returns unmarked, with no hand-over. */
  lemma AnUnreadMarkReadsAsCrash() returns (w: World, q: Id)
    ensures Reachable(w, WholeAndRead) && q in w.procs && w.procs[q].death.Returned?
    ensures ReadsAsCrash(w, q) && w.procs[q].handOver.Idle? && w.procs[q].main == Done(ReadFailed)
  {
    q := Id(1, 0);
    w := Nothing(WholeAndRead);
    w := ABackgroundStarts(w, 1, WholeAndRead);
    w := ItLeavesItsLoop(w, q, WholeAndRead);
    w := ItComesToItsMark(w, q, WholeAndRead);
    w := ItReadsItsRecord(w, q, false, WholeAndRead);
    w := ItReturns(w, q, WholeAndRead);
  }

  /** A refused root cannot read the record: it then writes its refusal over that of the background that
  serves, even with indivisible record operations. */
  lemma AnUnreadRefusalSpoils() returns (w: World, e: Event)
    ensures Reachable(w, Whole) && Enabled(w, e) && Fresh(w, e) && Spoils(w, e) && WritesUnread(w, e)
  {
    var q := Id(2, 4);
    w := Nothing(Whole);
    w := ABackgroundStarts(w, 1, Whole);
    w := Go(w, Spawn(2, true), Whole);
    w := Go(w, By(q, RefuseRoot), Whole);
    w := Go(w, By(q, RefusalRead(false)), Whole);
    e := By(q, RefusalWrite(true));
  }

  /** The End command's second is over between the read and the write of its mark: nothing failed, and the
  record reads as a crash. */
  lemma AnEndOutrunsItsMark() returns (w: World, q: Id)
    ensures Reachable(w, WholeAndRead) && q in w.procs && w.procs[q].death.WindowsEnded?
    ensures ReadsAsCrash(w, q) && w.procs[q].window.Read? && !Failed(w.procs[q].main) && !Failed(w.procs[q].handOver)
  {
    q := Id(1, 0);
    w := Nothing(WholeAndRead);
    w := ABackgroundStarts(w, 1, WholeAndRead);
    w := ANoticeIsHeard(w, q, EndCommand, WholeAndRead);
    w := WindowsEndsIt(w, q, WholeAndRead);
  }

  /** A session that ends while the background closes its sessions, with no window any more to hear it:
  the record reads as a crash, although a stop had been asked for. */
  lemma AnUnheardEndReadsAsCrash() returns (w: World, q: Id)
    ensures Reachable(w, WholeAndRead) && q in w.procs && w.procs[q].death.WindowsEnded?
    ensures ReadsAsCrash(w, q) && w.procs[q].window.Idle? && w.procs[q].state.Stopping?
  {
    q := Id(1, 0);
    w := Nothing(WholeAndRead);
    w := ABackgroundStarts(w, 1, WholeAndRead);
    w := ItLeavesItsLoop(w, q, WholeAndRead);
    w := Go(w, By(q, ReleasePipe), WholeAndRead);
    w := WindowsEndsIt(w, q, WholeAndRead);
  }

  /** A relay that read a crashed background's record writes it again after the next one started. */
  lemma AStaleExitSpoils() returns (w: World, e: Event)
    ensures Reachable(w, Any) && Enabled(w, e) && Spoils(w, e) && e.RelayWrites?
  {
    var a := Id(1, 0);
    w := Nothing(Any);
    w := ABackgroundStarts(w, 1, Any);
    w := ItCrashes(w, a, Any);
    w := ARelayReads(w, 0, a, Any);
    w := ABackgroundStarts(w, 2, Any);
    e := RelayWrites(0, true);
  }

  const SERVING_UNHEARD := SERVING.(lost := true)

  /** A listener that fails frees the pipe's name: a second background then serves beside the first, though
  only one holds the pipe. */
  lemma AFailedListenerLetsASecondServe() returns (w: World, a: Id, b: Id)
    ensures Reachable(w, WholeAndRead) && a != b && a in w.procs && b in w.procs
    ensures w.procs[a].death.Alive? && w.procs[a].pc.Accepting? && w.procs[b].death.Alive? && w.procs[b].pc.Accepting?
    ensures w.pipe == Some(b) && Names(w.record, b)
  {
    a := Id(1, 0);
    w := Nothing(WholeAndRead);
    w := ABackgroundStarts(w, 1, WholeAndRead);
    w := ItsListenerFails(w, a, WholeAndRead);
    b := Id(2, w.now);
    w := ABackgroundStarts(w, 2, WholeAndRead);
  }

  lemma ItsListenerFails(w: World, q: Id, runs: Runs) returns (w': World)
    requires Reachable(w, runs) && q in w.procs && w.procs[q] == SERVING && w.pipe == Some(q)
    ensures Reachable(w', runs)
    ensures w' == w.(now := w.now + 1, pipe := None, procs := w.procs[q := SERVING_UNHEARD])
  {
    w' := Go(w, By(q, ListenerFails), runs);
  }

  /** A stop whose sessions cannot be closed without a throw is not marked, and reads as a crash. */
  lemma AThrowingDisposalReadsAsCrash() returns (w: World, q: Id)
    ensures Reachable(w, WholeAndRead) && q in w.procs && w.procs[q].death.Threw? && w.procs[q].state == Stopping
    ensures ReadsAsCrash(w, q)
  {
    q := Id(1, 0);
    w := Nothing(WholeAndRead);
    w := ABackgroundStarts(w, 1, WholeAndRead);
    w := ItLeavesItsLoop(w, q, WholeAndRead);
    w := Go(w, By(q, ReleasePipe), WholeAndRead);
    w := Go(w, By(q, DisposeThrows), WholeAndRead);
  }

  /** A pid reused between the ask and the read of the record: the start ends a background it never asked. */
  lemma AReusedPidMisleads() returns (w: World)
    ensures Reachable(w, WholeAndRead) && |w.kills| == 1 && w.kills[0].target != w.kills[0].asked
  {
    w := Nothing(WholeAndRead);
    w := ABackgroundStarts(w, 1, WholeAndRead);
    w := NoAnswerComes(w, 0, WholeAndRead);
    w := ItCrashes(w, Id(1, 0), WholeAndRead);
    w := ABackgroundStarts(w, 1, WholeAndRead);
    w := ItFindsItsVictim(w, 0, Id(1, 7), WholeAndRead);
    w := ItEndsItsVictim(w, 0, Id(1, 7), WholeAndRead);
  }

  /** A stop closes a waiting start's connection without an answer, which reads as hung: the start
  then ends a background that was stopping, before its mark, and clears its record. */
  lemma AStoppingBackgroundCanBeEnded() returns (w: World, q: Id)
    ensures Reachable(w, WholeAndRead) && q in w.procs && w.procs[q].death.Killed? && w.procs[q].state.Stopping?
    ensures !Marked(w.procs[q]) && w.record.None?
  {
    q := Id(1, 0);
    w := Nothing(WholeAndRead);
    w := ABackgroundStarts(w, 1, WholeAndRead);
    w := ItLeavesItsLoop(w, q, WholeAndRead);
    w := NoAnswerComes(w, 0, WholeAndRead);
    w := ItFindsItsVictim(w, 0, q, WholeAndRead);
    w := ItEndsItsVictim(w, 0, q, WholeAndRead);
    w := Go(w, Person(0, EndClear), WholeAndRead);
  }
}
