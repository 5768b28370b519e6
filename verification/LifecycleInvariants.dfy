/** What every step of the lifecycle protocol keeps. */
module LifecycleInvariants {
  import opened Wrappers
  import opened Lifecycle

  // ----- processes, one at a time -----

  /** What the code position, the state and the marks of one process say of each other. */
  ghost predicate WellFormed(p: Process) {
    && (p.started ==> p.tried)
    && (p.listening ==> p.tried)
    && (p.tried ==> p.pc.Recorded? || p.pc.Accepting? || p.pc.Closing? || p.pc.Disposing? || p.pc.Ending?)
    && (p.pc.Recorded? || p.pc.Accepting? ==> p.tried)
    && (!p.tried ==> p.window.Idle? && !p.windowMarked)
    && (p.lost ==> p.listening)
    && (!p.listening ==> p.state.Serving? && p.handOver.Idle? && p.main.Idle?)
    && (p.pc.Accepting? ==> p.listening)
    && (p.pc.Closing? || p.pc.Disposing? || p.pc.Ending? ==> p.threw || (p.cancelled && !p.state.Serving?))
    && (p.state.Updating? <==> !p.handOver.Idle?)
    && (p.state.Stopping? <==> p.handOver.Idle? && p.cancelled)
    && (!p.main.Idle? ==> p.pc.Ending?)
    && (p.pc.Ending? && p.main.Idle? ==> p.threw || p.state.Updating?)
    && (p.death.Returned? && p.tried ==> p.pc.Ending? && !p.threw && (p.main.Idle? || p.main.Done?))
    && (p.windowMarked ==> !p.window.Idle?)
    && (p.window == Done(Wrote) ==> p.windowMarked)
    && (p.main.Read? || p.handOver.Read? || p.window.Read? ==> p.started)
  }

  ghost predicate Processes(w: World) {
    forall q :: q in w.procs ==> WellFormed(w.procs[q]) && q.created < w.now
  }

  ghost predicate UniquePids(w: World) {
    forall p, q :: IsAlive(w, p) && IsAlive(w, q) && p.pid == q.pid ==> p == q
  }

  /** The pipe is held by exactly the process whose code holds it. */
  ghost predicate PipeHeld(w: World) {
    && (w.pipe.Some? ==> w.pipe.value in w.procs)
    && (forall q :: q in w.procs ==> (HoldsPc(w.procs[q]) <==> w.pipe == Some(q)))
  }

  // ----- the record -----

  ghost predicate IsGone(w: World, id: Id) {
    id in w.procs && !w.procs[id].death.Alive?
  }

  /** What a person's start read names an author, and one that is gone if the start will clear it. */
  ghost predicate SnapshotOk(w: World, p: Person) {
    match p
    case ClearPending(r) => r.who in w.wrote && IsGone(w, r.who)
    case ClearAfterEnd(r) => r.who in w.wrote && IsGone(w, r.who)
    case EndPending(_, _, _, r) => r.who in w.wrote
    case _ => true
  }

  /** What a refused root saw and will write over names a process that is gone. */
  ghost predicate BeforeOk(w: World, p: Process) {
    p.pc.RefusalPending? && p.pc.seen && p.pc.before.Some? ==> IsGone(w, p.pc.before.value.who)
  }

  /** It recorded its start, or its refusal. */
  ghost predicate IsAuthor(p: Process) {
    p.started || (p.pc.RefusalPending? && !p.death.Alive?)
  }

  /** Only processes that wrote a record of their own are ever named, by the file or by a snapshot of it. */
  ghost predicate Authors(w: World) {
    && (forall q :: q in w.wrote ==> q in w.procs && IsAuthor(w.procs[q]))
    && (forall q :: q in w.procs && w.procs[q].started ==> q in w.wrote)
    && (w.record.Some? ==> w.record.value.who in w.wrote)
    && (forall n :: n in w.persons ==> SnapshotOk(w, w.persons[n]))
    && (forall q :: q in w.procs ==> BeforeOk(w, w.procs[q]))
  }

  ghost predicate OwnSnapshot(id: Id, m: Marking) {
    match m
    case Asked(how) => !how.Refused?
    case Read(how, seen) => seen.who == id && !how.Refused?
    case _ => true
  }

  ghost predicate OwnMarkings(id: Id, p: Process) {
    OwnSnapshot(id, p.main) && OwnSnapshot(id, p.handOver) && OwnSnapshot(id, p.window)
  }

  ghost predicate OwnSnapshots(w: World) {
    forall q :: q in w.procs ==> OwnMarkings(q, w.procs[q])
  }

  /** A mark is not written yet, or was not because a read or a write failed. */
  ghost predicate Missing(m: Marking) {
    m.Done? ==> Failed(m)
  }

  ghost predicate Failed(m: Marking) {
    m == Done(WriteFailed) || m == Done(ReadFailed)
  }

  ghost predicate TellsTheEnd(p: Process, ended: Option<End>) {
    match ended
    case None => p.started && !p.windowMarked && Missing(p.main) && Missing(p.handOver) && Missing(p.window)
    case Some(how) => if how.Refused? then !p.tried else Marked(p)
  }

  /** What the end mark of the file says of the process the file names. */
  ghost predicate MarkTellsTheEnd(w: World) {
    w.record.Some? && w.record.value.who in w.procs ==> TellsTheEnd(w.procs[w.record.value.who], w.record.value.ended)
  }

  /** What a relay will write again is the unmarked record of a process that is gone. */
  ghost predicate RelayOk(w: World, r: Record) {
    r.who in w.wrote && IsGone(w, r.who) && r.ended.None? && TellsTheEnd(w.procs[r.who], None)
  }

  ghost predicate RelaysOk(w: World, relays: map<nat, Record>) {
    forall n :: n in relays ==> RelayOk(w, relays[n])
  }

  ghost predicate Relays(w: World) {
    RelaysOk(w, w.relays)
  }

  // ----- persons' starts -----

  /** `asked` is the only process that can have had that pid by `askedAt` and still be alive. */
  ghost predicate OnlyAsked(w: World, asked: Id, askedAt: nat) {
    && asked in w.procs && asked.created < askedAt < w.now
    && (forall q :: IsAlive(w, q) && q.pid == asked.pid && q.created <= askedAt ==> q == asked)
  }

  ghost predicate PersonKnows(w: World, p: Person) {
    match p
    case Hung(asked, reported, askedAt) => OnlyAsked(w, asked, askedAt)
        && (reported.Some? ==> reported.value == asked.pid)
    case EndPending(asked, pid, askedAt, victim) => OnlyAsked(w, asked, askedAt) && pid == asked.pid == victim.who.pid
    case Shown(h) => h in w.procs && w.procs[h].tried
    case _ => true
  }

  ghost predicate Persons(w: World) {
    forall n :: n in w.persons ==> PersonKnows(w, w.persons[n])
  }

  ghost predicate RightfulKill(w: World, k: Kill) {
    && k.target in w.wrote
    && k.target in w.procs && w.procs[k.target].death.Killed?
    && k.target.pid == k.reported == k.asked.pid
    && k.asked in w.procs && k.asked.created < k.askedAt < k.at
    && (k.target == k.asked <==> k.target.created <= k.askedAt)
  }

  ghost predicate Kills(w: World) {
    forall i :: 0 <= i < |w.kills| ==> RightfulKill(w, w.kills[i])
  }

  ghost predicate Inv(w: World) {
    && Processes(w) && UniquePids(w) && PipeHeld(w)
    && Authors(w) && OwnSnapshots(w) && MarkTellsTheEnd(w)
    && Relays(w) && Persons(w) && Kills(w)
  }

  // ----- every step keeps them -----

  /** What a change of one live process asks of that process, the pipe and the record. */
  ghost predicate LocalChange(w: World, id: Id, o: Outcome) {
    && IsAlive(w, id)
    && WellFormed(o.p) && OwnMarkings(id, o.p)
    && (w.procs[id].tried ==> o.p.tried)
    && (o.pipe == w.pipe || (w.pipe.None? && o.pipe == Some(id)) || (w.pipe == Some(id) && o.pipe.None?))
    && (HoldsPc(o.p) <==> o.pipe == Some(id))
    && BeforeOk(w, o.p)
    && (o.author || id in w.wrote ==> IsAuthor(o.p))
    && (o.p.started ==> o.author || id in w.wrote)
    && (o.record == w.record || (Names(o.record, id) && (o.author || id in w.wrote)))
    && (Names(o.record, id) ==> TellsTheEnd(o.p, o.record.value.ended))
  }

  lemma ChangedProcesses(w: World, id: Id, o: Outcome)
    requires Inv(w) && LocalChange(w, id, o)
    ensures var w' := Changed(w, id, o);
            Processes(w') && UniquePids(w') && PipeHeld(w') && OwnSnapshots(w')
  {
  }

  lemma ChangedRecord(w: World, id: Id, o: Outcome)
    requires Inv(w) && LocalChange(w, id, o)
    ensures MarkTellsTheEnd(Changed(w, id, o))
  {
  }

  lemma ChangedSnapshots(w: World, id: Id, o: Outcome)
    requires Inv(w) && LocalChange(w, id, o)
    ensures var w' := Changed(w, id, o);
            forall n :: n in w'.persons ==> SnapshotOk(w', w'.persons[n])
  {
    forall n | n in w.persons ensures SnapshotOk(Changed(w, id, o), w.persons[n]) {
      assert SnapshotOk(w, w.persons[n]);
    }
  }

  lemma ChangedAuthors(w: World, id: Id, o: Outcome)
    requires Inv(w) && LocalChange(w, id, o)
    ensures Authors(Changed(w, id, o))
  {
    ChangedSnapshots(w, id, o);
  }

  lemma ChangedPersons(w: World, id: Id, o: Outcome)
    requires Inv(w) && LocalChange(w, id, o)
    ensures Relays(Changed(w, id, o)) && Persons(Changed(w, id, o)) && Kills(Changed(w, id, o))
  {
    var w' := Changed(w, id, o);
    forall n | n in w'.relays ensures RelayOk(w', w'.relays[n]) {
      assert RelayOk(w, w.relays[n]);
    }
    forall n | n in w'.persons ensures PersonKnows(w', w'.persons[n]) {
      assert PersonKnows(w, w.persons[n]);
    }
    forall i | 0 <= i < |w'.kills| ensures RightfulKill(w', w'.kills[i]) {
      assert RightfulKill(w, w.kills[i]);
    }
  }

  lemma InvChange(w: World, id: Id, o: Outcome)
    requires Inv(w) && LocalChange(w, id, o)
    ensures Inv(Changed(w, id, o))
  {
    ChangedProcesses(w, id, o);
    ChangedRecord(w, id, o);
    ChangedAuthors(w, id, o);
    ChangedPersons(w, id, o);
  }

  /** What the invariants say of one live process. */
  ghost predicate Facts(w: World, id: Id) {
    && IsAlive(w, id)
    && WellFormed(w.procs[id])
    && OwnMarkings(id, w.procs[id])
    && (HoldsPc(w.procs[id]) <==> w.pipe == Some(id))
    && (id in w.wrote <==> w.procs[id].started)
    && (Names(w.record, id) ==> id in w.wrote && TellsTheEnd(w.procs[id], w.record.value.ended))
    && (w.record.Some? ==> w.record.value.who in w.procs)
    && (w.record.Some? && IsAlive(w, w.record.value.who) && w.record.value.who.pid == id.pid
        ==> w.record.value.who == id)
    && BeforeOk(w, w.procs[id])
  }

  lemma FactsOf(w: World, id: Id)
    requires Inv(w) && IsAlive(w, id)
    ensures Facts(w, id)
  {
    assert WellFormed(w.procs[id]);
  }

  lemma TakingActs(w: World, id: Id, act: Act)
    requires Facts(w, id) && MayAct(w, w.procs[id], act)
    requires act.RefuseRoot? || act.RefusalRead? || act.RefusalWrite? || act.TakePipe? || act.WriteStarted?
        || act.StartAccepting?
    ensures LocalChange(w, id, OutcomeOf(w, id, act))
  {
  }

  lemma ServingActs(w: World, id: Id, act: Act)
    requires Facts(w, id) && MayAct(w, w.procs[id], act)
    requires act.ListenerFails? || act.StopVerb? || act.BeginHandOver? || act.CancelAfterHandOver? || act.Notice?
        || act.LeaveLoop? || act.Throw?
    ensures LocalChange(w, id, OutcomeOf(w, id, act))
  {
  }

  /** One activity comes to read its own record, or to an end because the read failed or the record is
  another's. */
  lemma MarkReadIsLocal(w: World, id: Id, t: Thread, m: Marking)
    requires Facts(w, id) && MarkingOf(w.procs[id], t).Asked?
    requires m == Done(ReadFailed)
          || (if Names(w.record, id) then m == Read(MarkingOf(w.procs[id], t).how, w.record.value)
              else m == Done(NamesAnother))
    ensures LocalChange(w, id, Continues(w, WithMarking(w.procs[id], t, m)))
  {
    var p := WithMarking(w.procs[id], t, m);
    assert WellFormed(p);
    assert OwnMarkings(id, p);
  }

  lemma MarkReads(w: World, id: Id, t: Thread, read: bool)
    requires Facts(w, id) && MayAct(w, w.procs[id], MarkRead(t, read))
    ensures LocalChange(w, id, OutcomeOf(w, id, MarkRead(t, read)))
  {
    MarkReadIsLocal(w, id, t, MarkingOf(OutcomeOf(w, id, MarkRead(t, read)).p, t));
  }

  lemma MarkIsWritten(w: World, id: Id, t: Thread)
    requires Facts(w, id) && MayAct(w, w.procs[id], MarkWrite(t, true))
    ensures LocalChange(w, id, OutcomeOf(w, id, MarkWrite(t, true)))
  {
  }

  lemma MarkIsNotWritten(w: World, id: Id, t: Thread)
    requires Facts(w, id) && MayAct(w, w.procs[id], MarkWrite(t, false))
    ensures LocalChange(w, id, OutcomeOf(w, id, MarkWrite(t, false)))
  {
  }

  lemma MarkWrites(w: World, id: Id, t: Thread, ok: bool)
    requires Facts(w, id) && MayAct(w, w.procs[id], MarkWrite(t, ok))
    ensures LocalChange(w, id, OutcomeOf(w, id, MarkWrite(t, ok)))
  {
    if ok {
      MarkIsWritten(w, id, t);
    } else {
      MarkIsNotWritten(w, id, t);
    }
  }

  lemma EndingActs(w: World, id: Id, act: Act)
    requires Facts(w, id) && MayAct(w, w.procs[id], act)
    requires act.ReleasePipe? || act.FinallyMark?
    ensures LocalChange(w, id, OutcomeOf(w, id, act))
  {
  }

  /** A process ends in a way that its own position allows. */
  lemma GoneIsLocal(w: World, id: Id, how: Death)
    requires Facts(w, id) && !how.Alive? && WellFormed(w.procs[id].(death := how))
    ensures LocalChange(w, id, Gone(w, id, w.procs[id], how))
  {
  }

  lemma LastActs(w: World, id: Id, act: Act)
    requires Facts(w, id) && MayAct(w, w.procs[id], act)
    requires act.DisposeThrows? || act.Return? || act.WindowsEnds? || act.Crash?
    ensures LocalChange(w, id, OutcomeOf(w, id, act))
  {
    GoneIsLocal(w, id, OutcomeOf(w, id, act).p.death);
  }

  /** The acts of a background are such changes. */
  lemma ActIsLocal(w: World, id: Id, act: Act)
    requires Facts(w, id) && MayAct(w, w.procs[id], act)
    ensures LocalChange(w, id, OutcomeOf(w, id, act))
  {
    match act
    case RefuseRoot | RefusalRead(_) | RefusalWrite(_) | TakePipe | WriteStarted(_) | StartAccepting =>
        TakingActs(w, id, act);
    case ListenerFails | StopVerb | BeginHandOver | CancelAfterHandOver | Notice(_) | LeaveLoop | Throw =>
        ServingActs(w, id, act);
    case MarkRead(t, read) => MarkReads(w, id, t, read);
    case MarkWrite(t, ok) => MarkWrites(w, id, t, ok);
    case ReleasePipe | FinallyMark => EndingActs(w, id, act);
    case DisposeThrows | Return | WindowsEnds | Crash => LastActs(w, id, act);
  }

  // ----- persons' starts and new processes -----

  lemma SpawnedProcesses(w: World, pid: nat, background: bool)
    requires Inv(w) && Enabled(w, Spawn(pid, background))
    ensures Processes(Step(w, Spawn(pid, background))) && UniquePids(Step(w, Spawn(pid, background)))
  {
  }

  lemma SpawnedPipe(w: World, pid: nat, background: bool)
    requires Inv(w) && Enabled(w, Spawn(pid, background))
    ensures PipeHeld(Step(w, Spawn(pid, background)))
  {
    assert Id(pid, w.now) !in w.procs;
  }

  lemma SpawnedSnapshots(w: World, pid: nat, background: bool)
    requires Inv(w) && Enabled(w, Spawn(pid, background))
    ensures OwnSnapshots(Step(w, Spawn(pid, background)))
  {
  }

  lemma SpawnedRecord(w: World, pid: nat, background: bool)
    requires Inv(w) && Enabled(w, Spawn(pid, background))
    ensures var w' := Step(w, Spawn(pid, background));
            Authors(w') && MarkTellsTheEnd(w')
  {
    assert Id(pid, w.now) !in w.procs;
  }

  lemma SpawnedPersons(w: World, pid: nat, background: bool)
    requires Inv(w) && Enabled(w, Spawn(pid, background))
    ensures Persons(Step(w, Spawn(pid, background)))
  {
    var w' := Step(w, Spawn(pid, background));
    assert Id(pid, w.now) !in w.procs;
    forall n | n in w'.persons ensures PersonKnows(w', w'.persons[n]) {
      assert PersonKnows(w, w.persons[n]);
    }
  }

  lemma SpawnedLogs(w: World, pid: nat, background: bool)
    requires Inv(w) && Enabled(w, Spawn(pid, background))
    ensures Relays(Step(w, Spawn(pid, background))) && Kills(Step(w, Spawn(pid, background)))
  {
    var w' := Step(w, Spawn(pid, background));
    assert Id(pid, w.now) !in w.procs;
    forall n | n in w'.relays ensures RelayOk(w', w'.relays[n]) {
      assert RelayOk(w, w.relays[n]);
    }
    forall i | 0 <= i < |w'.kills| ensures RightfulKill(w', w'.kills[i]) {
      assert RightfulKill(w, w.kills[i]);
    }
  }

  lemma SpawnKeeps(w: World, pid: nat, background: bool)
    requires Inv(w) && Enabled(w, Spawn(pid, background))
    ensures Inv(Step(w, Spawn(pid, background)))
  {
    SpawnedProcesses(w, pid, background);
    SpawnedPipe(w, pid, background);
    SpawnedSnapshots(w, pid, background);
    SpawnedRecord(w, pid, background);
    SpawnedPersons(w, pid, background);
    SpawnedLogs(w, pid, background);
  }

  lemma MovedPersons(w: World, n: nat, p: Person, record: Option<Record>)
    requires Inv(w) && PersonKnows(w.(now := w.now + 1), p)
    ensures Persons(Moved(w, n, p, record))
  {
    var w' := Moved(w, n, p, record);
    forall m | m in w'.persons ensures PersonKnows(w', w'.persons[m]) {
      if m != n {
        assert PersonKnows(w, w.persons[m]);
      }
    }
  }

  lemma MovedLogs(w: World, n: nat, p: Person, record: Option<Record>)
    requires Inv(w)
    ensures Relays(Moved(w, n, p, record)) && Kills(Moved(w, n, p, record))
  {
    var w' := Moved(w, n, p, record);
    forall m | m in w'.relays ensures RelayOk(w', w'.relays[m]) {
      assert RelayOk(w, w.relays[m]);
    }
    forall i | 0 <= i < |w'.kills| ensures RightfulKill(w', w'.kills[i]) {
      assert RightfulKill(w, w.kills[i]);
    }
  }

  /** A person's start comes to `p`, and the record is kept or cleared. */
  lemma MovedKeeps(w: World, n: nat, p: Person, record: Option<Record>)
    requires Inv(w) && (record == w.record || record.None?)
    requires PersonKnows(w.(now := w.now + 1), p) && SnapshotOk(w, p)
    ensures Inv(Moved(w, n, p, record))
  {
    MovedPersons(w, n, p, record);
    MovedLogs(w, n, p, record);
  }

  lemma AskKeeps(w: World, n: nat, move: Move)
    requires Inv(w) && Enabled(w, Person(n, move))
    requires !move.EndKill?
    ensures PersonKnows(w.(now := w.now + 1), PersonAfter(w, n, move)) && SnapshotOk(w, PersonAfter(w, n, move))
  {
    if n in w.persons {
      assert PersonKnows(w, w.persons[n]);
    }
    if w.pipe.Some? {
      assert HoldsPc(w.procs[w.pipe.value]);
      assert WellFormed(w.procs[w.pipe.value]);
    }
  }

  lemma LogKeeps(w: World, k: Kill)
    requires Inv(w) && RightfulKill(w, k)
    ensures Inv(w.(kills := w.kills + [k]))
  {
    var w' := w.(kills := w.kills + [k]);
    forall m | m in w'.relays ensures RelayOk(w', w'.relays[m]) {
      assert RelayOk(w, w.relays[m]);
    }
    forall i | 0 <= i < |w'.kills| ensures RightfulKill(w', w'.kills[i]) {
      assert i < |w.kills| ==> RightfulKill(w, w.kills[i]);
    }
    forall m | m in w'.persons ensures PersonKnows(w', w'.persons[m]) {
      assert PersonKnows(w, w.persons[m]);
    }
  }

  /** The process a person's start ends is the one it asked exactly when it existed at the ask. */
  lemma EndIsRightful(w: World, n: nat)
    requires Inv(w) && Enabled(w, Person(n, EndKill(true)))
    ensures var h := w.persons[n];
      && LocalChange(w, h.victim.who, Gone(w, h.victim.who, w.procs[h.victim.who], Killed))
      && RightfulKill(Changed(w, h.victim.who, Gone(w, h.victim.who, w.procs[h.victim.who], Killed)),
                      Kill(h.victim.who, h.asked, h.pid, h.askedAt, w.now))
  {
    var h := w.persons[n];
    assert PersonKnows(w, h) && SnapshotOk(w, h);
    FactsOf(w, h.victim.who);
    GoneIsLocal(w, h.victim.who, Killed);
  }

  lemma EndKillKeeps(w: World, n: nat)
    requires Inv(w) && Enabled(w, Person(n, EndKill(true)))
    ensures Inv(Step(w, Person(n, EndKill(true))))
  {
    var h := w.persons[n];
    var v := h.victim.who;
    EndIsRightful(w, n);
    InvChange(w, v, Gone(w, v, w.procs[v], Killed));
    LogKeeps(Changed(w, v, Gone(w, v, w.procs[v], Killed)), Kill(v, h.asked, h.pid, h.askedAt, w.now));
    EndedSnapshot(w, n);
    MovedKeeps(Ended(w, n), n, ClearAfterEnd(h.victim), w.record);
  }

  lemma EndedSnapshot(w: World, n: nat)
    requires Inv(w) && Enabled(w, Person(n, EndKill(true)))
    ensures SnapshotOk(Ended(w, n), ClearAfterEnd(w.persons[n].victim))
  {
    assert SnapshotOk(w, w.persons[n]);
  }

  /** A relay changes nothing but the record, and that to one its author left. */
  lemma RelayedRecord(w: World, relays: map<nat, Record>, record: Option<Record>)
    requires Inv(w) && (record == w.record || (record.Some? && RelayOk(w, record.value)))
    ensures var w' := Relayed(w, relays, record);
      Processes(w') && UniquePids(w') && PipeHeld(w') && Authors(w') && OwnSnapshots(w') && MarkTellsTheEnd(w')
  {
  }

  lemma RelayedKeeps(w: World, relays: map<nat, Record>, record: Option<Record>)
    requires Inv(w) && (record == w.record || (record.Some? && RelayOk(w, record.value)))
    requires RelaysOk(w, relays)
    ensures Inv(Relayed(w, relays, record))
  {
    var w' := Relayed(w, relays, record);
    RelayedRecord(w, relays, record);
    forall n | n in w'.relays ensures RelayOk(w', w'.relays[n]) {
      assert RelayOk(w, relays[n]);
    }
    forall m | m in w'.persons ensures PersonKnows(w', w'.persons[m]) {
      assert PersonKnows(w, w.persons[m]);
    }
    forall i | 0 <= i < |w'.kills| ensures RightfulKill(w', w'.kills[i]) {
      assert RightfulKill(w, w.kills[i]);
    }
  }

  lemma OneMoreRelayOk(w: World, n: nat, gone: Id)
    requires Authors(w) && MarkTellsTheEnd(w) && Relays(w) && Enabled(w, RelayReads(n, gone))
    ensures RelaysOk(w, w.relays[n := w.record.value])
  {
  }

  lemma RelayReadsKeeps(w: World, n: nat, gone: Id)
    requires Inv(w) && Enabled(w, RelayReads(n, gone))
    ensures Inv(Step(w, RelayReads(n, gone)))
  {
    OneMoreRelayOk(w, n, gone);
    RelayedKeeps(w, w.relays[n := w.record.value], w.record);
  }

  lemma OneLessRelayOk(w: World, n: nat)
    requires Relays(w) && n in w.relays
    ensures RelayOk(w, w.relays[n]) && RelaysOk(w, w.relays - {n})
  {
  }

  lemma RelayWritesKeeps(w: World, n: nat, ok: bool)
    requires Inv(w) && Enabled(w, RelayWrites(n, ok))
    ensures Inv(Step(w, RelayWrites(n, ok)))
  {
    OneLessRelayOk(w, n);
    RelayedKeeps(w, w.relays - {n}, if ok then Some(w.relays[n]) else w.record);
  }

  lemma InvStep(w: World, e: Event)
    requires Inv(w) && Enabled(w, e)
    ensures Inv(Step(w, e))
  {
    match e
    case Spawn(pid, background) => SpawnKeeps(w, pid, background);
    case By(id, act) =>
      FactsOf(w, id);
      ActIsLocal(w, id, act);
      InvChange(w, id, OutcomeOf(w, id, act));
    case Person(n, move) =>
      if move == EndKill(true) {
        EndKillKeeps(w, n);
      } else if move == EndKill(false) {
        MovedKeeps(w, n, NotShown, w.record);
      } else {
        AskKeeps(w, n, move);
        MovedKeeps(w, n, PersonAfter(w, n, move), if move.ClearWrite? || move.EndClear? then None else w.record);
      }
    case RelayReads(n, gone) => RelayReadsKeeps(w, n, gone);
    case RelayWrites(n, ok) => RelayWritesKeeps(w, n, ok);
  }

  lemma {:induction false} InvRun(w: World, es: seq<Event>)
    requires Inv(w) && IsRun(w, es)
    ensures Inv(After(w, es))
    decreases |es|
  {
    if es != [] {
      InvStep(w, es[0]);
      InvRun(Step(w, es[0]), es[1..]);
    }
  }
}
