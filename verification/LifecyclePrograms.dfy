/** The programs of the lifecycle protocol in their own form, one uninterrupted run at a time.

Each method changes the record file and the pipe as the code does, and is proved to be a run of the
transition system with indivisible record operations: the ghost `Run` it extends ends in a world that shows
the same record, the same pipe and the same state. */
module LifecyclePrograms {
  import opened Wrappers
  import opened Lifecycle
  import LifecycleTheorems

  /** A run of the transition system, and the world it has come to. */
  datatype Run = Run(from: World, es: seq<Event>, w: World)

  ghost predicate IsWhole(r: Run) {
    IsRun(r.from, r.es) && After(r.from, r.es) == r.w && IsIndivisible(r.from, r.es)
  }

  lemma Then(r: Run, e: Event) returns (r': Run)
    requires IsWhole(r) && Enabled(r.w, e) && Fresh(r.w, e)
    ensures IsWhole(r') && r'.from == r.from && r'.w == Step(r.w, e)
  {
    LifecycleTheorems.Extend(r.from, r.es, e);
    r' := Run(r.from, r.es + [e], Step(r.w, e));
  }

  ghost predicate Has(r: Run, id: Id, p: Process) {
    IsWhole(r) && id in r.w.procs && r.w.procs[id] == p && p.death.Alive?
  }

  lemma MarkIsRead(r: Run, id: Id, t: Thread, read: bool) returns (r': Run, p': Process)
    requires IsWhole(r) && IsAlive(r.w, id) && MarkingOf(r.w.procs[id], t).Asked?
    ensures Has(r', id, p') && r'.from == r.from && r'.w.record == r.w.record && r'.w.pipe == r.w.pipe
    ensures var m := MarkingOf(r.w.procs[id], t);
            p' == WithMarking(r.w.procs[id], t, if !read then Done(ReadFailed)
                                                else if Names(r.w.record, id) then Read(m.how, r.w.record.value)
                                                else Done(NamesAnother))
  {
    r' := Then(r, By(id, MarkRead(t, read)));
    p' := r'.w.procs[id];
  }

  lemma MarkIsWritten(r: Run, id: Id, t: Thread, ok: bool) returns (r': Run, p': Process)
    requires IsWhole(r) && IsAlive(r.w, id) && MarkingOf(r.w.procs[id], t).Read?
    requires r.w.record == Some(MarkingOf(r.w.procs[id], t).seen)
    ensures Has(r', id, p') && r'.from == r.from && r'.w.pipe == r.w.pipe
    ensures var m := MarkingOf(r.w.procs[id], t);
            r'.w.record == Some(if ok then m.seen.(ended := Some(m.how)) else m.seen)
    ensures p' == WithMarking(r.w.procs[id], t, Done(if ok then Wrote else WriteFailed))
        .(windowMarked := p'.windowMarked)
  {
    r' := Then(r, By(id, MarkWrite(t, ok)));
    p' := r'.w.procs[id];
  }

  lemma MarkedOver(p: Process, t: Thread, m: Marking, n: Marking)
    ensures WithMarking(WithMarking(p, t, m), t, n) == WithMarking(p, t, n)
    ensures MarkingOf(WithMarking(p, t, m), t) == m
  {
    match t
    case Main =>
    case HandOver =>
    case Window =>
  }

  /** The marking `m` is what came of it. */
  lemma MarkIsMade(r: Run, id: Id, t: Thread, how: End, read: bool, ok: bool) returns (r': Run, p': Process, m: Marking)
    requires IsWhole(r) && IsAlive(r.w, id) && MarkingOf(r.w.procs[id], t) == Asked(how)
    ensures Has(r', id, p') && r'.from == r.from && r'.w.pipe == r.w.pipe
    ensures r'.w.record == AfterMark(r.w.record, id, how, read, ok)
    ensures m.Done? && p' == WithMarking(r.w.procs[id], t, m).(windowMarked := p'.windowMarked)
  {
    r', p' := MarkIsRead(r, id, t, read);
    if !read {
      m := Done(ReadFailed);
    } else if !Names(r.w.record, id) {
      m := Done(NamesAnother);
    } else {
      m := Done(if ok then Wrote else WriteFailed);
      MarkedOver(r.w.procs[id], t, Read(how, r.w.record.value), m);
      r', p' := MarkIsWritten(r', id, t, ok);
    }
  }

  /** What all processes share. */
  class Shared {
    var record: Option<Record>
    var pipe: Option<Id>

    constructor ()
      ensures record.None? && pipe.None?
    {
      record, pipe := None, None;
    }

    ghost predicate Shows(w: World)
      reads this
    {
      record == w.record && pipe == w.pipe
    }
  }

  /** An update's hand-over, with its mark made before the process is gone or not. */
  datatype HandOverFate = NoHandOver | MarkInTime | MarkTooLate

  /** What a serve meets: something thrown before it accepts, or what comes after that and whether it then
  throws. */
  datatype Fate = ThrowsEarly | Fate(stop: bool, handOver: HandOverFate, throws: bool)

  /** Something ends the serve: it is stopped, handed over or throws. */
  predicate Ends(fate: Fate) {
    fate.ThrowsEarly? || fate.stop || fate.handOver.MarkInTime? || fate.throws
  }

  predicate ThrowsAtAll(fate: Fate) {
    fate.ThrowsEarly? || fate.throws
  }

  /** The mark that is due: the hand-over's if it comes in time, and a stop's if there is no hand-over. */
  function Due(fate: Fate): Option<End> {
    if fate.ThrowsEarly? then None
    else match fate.handOver
      case MarkInTime => Some(Update)
      case MarkTooLate => None
      case NoHandOver => if fate.stop then Some(Stopped) else None
  }

  function StateAfter(fate: Fate): State {
    if fate.ThrowsEarly? then Serving
    else if !fate.handOver.NoHandOver? then Updating
    else if fate.stop then Stopping
    else Serving
  }

  /** Which accesses to the record succeed: the started write, the read before a mark or a refusal, and the
  write of a mark or a refusal. */
  datatype Files = Files(started: bool, read: bool, writes: bool)

  function AfterMark(record: Option<Record>, me: Id, how: End, read: bool, writes: bool): Option<Record> {
    if read && Names(record, me) && writes then Some(record.value.(ended := Some(how))) else record
  }

  function AfterHandOver(record: Option<Record>, me: Id, fate: Fate, files: Files): Option<Record> {
    if Due(fate) == Some(Update) then AfterMark(record, me, Update, files.read, files.writes) else record
  }

  function Left(record: Option<Record>, me: Id, fate: Fate, files: Files): Option<Record> {
    var started := if files.started then Some(Record(me, None)) else record;
    match Due(fate)
    case Some(how) => AfterMark(started, me, how, files.read, files.writes)
    case None => started
  }

  /** A refusal goes over any record but one that was read and names another live process. */
  function AfterRefusal(record: Option<Record>, me: Id, alive: Id -> bool, files: Files): Option<Record> {
    if (files.read && record.Some? && record.value.who.pid != me.pid && alive(record.value.who)) || !files.writes
    then record
    else Some(Record(me, Some(Refused)))
  }

  class Background {
    const me: Id
    const shared: Shared
    var state: State

    constructor (me: Id, shared: Shared)
      ensures this.me == me && this.shared == shared && state == Serving
    {
      this.me, this.shared, state := me, shared, Serving;
    }

    /** The world shows what this process and the others share, and this process in its state. */
    ghost predicate Mirrors(r: Run, p: Process)
      reads this, shared
    {
      IsWhole(r) && shared.Shows(r.w) && me in r.w.procs && r.w.procs[me] == p && p.death.Alive? && p.state == state
    }

    /** A refused root is recorded, but never over a record that it could read and that names another live
    process. */
    method RecordTheRefusal(alive: Id -> bool, files: Files, ghost r: Run) returns (ghost r': Run)
      requires Mirrors(r, FRESH_PROCESS) && shared.pipe != Some(me) && forall id :: alive(id) == IsAlive(r.w, id)
      modifies shared`record
      ensures IsWhole(r') && r'.from == r.from && shared.Shows(r'.w)
      ensures shared.record == AfterRefusal(old(shared.record), me, alive, files)
      ensures me in r'.w.procs && r'.w.procs[me].death.Returned?
    {
      r' := Then(r, By(me, RefuseRoot));
      r' := Then(r', By(me, RefusalRead(files.read)));
      var other := if files.read then shared.record else None;
      if other.Some? && other.value.who.pid != me.pid && alive(other.value.who) {
        return;
      }
      r' := Then(r', By(me, RefusalWrite(files.writes)));
      if files.writes {
        shared.record := Some(Record(me, Some(Refused)));
      }
    }

    /** One activity marks the record, if it can read it and it still names this process. */
    method EndedCleanly(how: End, files: Files, ghost t: Thread, ghost r: Run, ghost p: Process)
      returns (ghost r': Run, ghost p': Process, ghost m: Marking)
      requires Mirrors(r, p) && MarkingOf(p, t) == Asked(how)
      modifies shared`record
      ensures Mirrors(r', p') && r'.from == r.from
      ensures shared.record == AfterMark(old(shared.record), me, how, files.read, files.writes)
      ensures m.Done? && p' == WithMarking(p, t, m).(windowMarked := p'.windowMarked)
    {
      r', p', m := MarkIsMade(r, me, t, how, files.read, files.writes);
      var state := if files.read then shared.record else None;
      if Names(state, me) && files.writes {
        shared.record := Some(state.value.(ended := Some(how)));
      }
    }

    /** From the pipe being taken to the end of the loop, or to what it throws. */
    method Serve(fate: Fate, files: Files, ghost r: Run) returns (throws: bool, ghost r': Run, ghost p': Process)
      requires Mirrors(r, FRESH_PROCESS.(pc := Holding)) && shared.pipe == Some(me) && Ends(fate)
      modifies this`state, shared`record
      ensures Mirrors(r', p') && r'.from == r.from && shared.pipe == Some(me)
      ensures throws == ThrowsAtAll(fate) && p'.threw == throws
      ensures p'.pc.Closing? && p'.main.Idle? && p'.started == files.started
      ensures state == StateAfter(fate)
      ensures var started := if files.started then Some(Record(me, None)) else old(shared.record);
        shared.record == AfterHandOver(started, me, fate, files)
    {
      r' := Then(r, By(me, WriteStarted(files.started)));
      if files.started {
        shared.record := Some(Record(me, None));
      }
      if fate.ThrowsEarly? {
        r' := Then(r', By(me, Throw));
        return true, r', r'.w.procs[me];
      }
      r' := Then(r', By(me, StartAccepting));
      r', p' := EndTheLoop(fate, files, r', r'.w.procs[me]);
      return fate.throws, r', p';
    }

    /** A hand-over and a stop come, each or both or none, and then the loop is left or throws. */
    method EndTheLoop(fate: Fate, files: Files, ghost r: Run, ghost p: Process)
      returns (ghost r': Run, ghost p': Process)
      requires Mirrors(r, p) && p.pc.Accepting? && p.listening && p.state.Serving? && !p.threw
      requires p.handOver.Idle? && p.main.Idle?
      requires !fate.ThrowsEarly? && Ends(fate)
      modifies this`state, shared`record
      ensures Mirrors(r', p') && r'.from == r.from
      ensures p'.pc.Closing? && p'.threw == fate.throws && p'.main.Idle? && p'.started == p.started
      ensures state == StateAfter(fate)
      ensures shared.record == AfterHandOver(old(shared.record), me, fate, files)
    {
      r', p' := HandOverTo(fate.handOver, files, r, p);
      r', p' := Stop(fate.stop, r', p');
      r', p' := LeaveOrThrow(fate.throws, r', p');
    }

    /** An update sets the state, marks the record and then cancels the loop. */
    method HandOverTo(handOver: HandOverFate, files: Files, ghost r: Run, ghost p: Process)
      returns (ghost r': Run, ghost p': Process)
      requires Mirrors(r, p) && p.pc.Accepting? && p.listening && p.state.Serving? && p.handOver.Idle? && !p.threw
      modifies this`state, shared`record
      ensures Mirrors(r', p') && r'.from == r.from
      ensures state == if handOver.NoHandOver? then Serving else Updating
      ensures shared.record
           == if handOver.MarkInTime? then AfterMark(old(shared.record), me, Update, files.read, files.writes)
              else old(shared.record)
      ensures p'.pc.Accepting? && p'.listening && !p'.threw && (handOver.MarkInTime? ==> p'.cancelled)
      ensures p'.main == p.main && p'.started == p.started
    {
      r', p' := r, p;
      if !handOver.NoHandOver? {
        r', p' := BeginTheHandOver(r, p);
      }
      if handOver.MarkInTime? {
        ghost var m;
        r', p', m := EndedCleanly(Update, files, HandOver, r', p');
        r' := Then(r', By(me, CancelAfterHandOver));
        p' := r'.w.procs[me];
      }
    }

    /** A stop changes the state only while it serves, and cancels the loop in any. */
    method Stop(asked: bool, ghost r: Run, ghost p: Process) returns (ghost r': Run, ghost p': Process)
      requires Mirrors(r, p) && p.pc.Accepting? && p.listening
      modifies this`state
      ensures Mirrors(r', p') && r'.from == r.from && shared.record == old(shared.record)
      ensures state == if asked && old(state).Serving? then Stopping else old(state)
      ensures p' == p.(state := state, cancelled := p.cancelled || asked)
    {
      r', p' := r, p;
      if asked {
        if state.Serving? {
          state := Stopping;
        }
        r' := Then(r, By(me, StopVerb));
        p' := r'.w.procs[me];
      }
    }

    method LeaveOrThrow(throws: bool, ghost r: Run, ghost p: Process) returns (ghost r': Run, ghost p': Process)
      requires Mirrors(r, p) && p.pc.Accepting? && !p.threw
      requires !throws ==> p.cancelled && !p.state.Serving?
      ensures Mirrors(r', p') && r'.from == r.from
      ensures p' == p.(pc := Closing, threw := throws)
    {
      r' := Then(r, By(me, if throws then Throw else LeaveLoop));
      p' := r'.w.procs[me];
    }

    method BeginTheHandOver(ghost r: Run, ghost p: Process) returns (ghost r': Run, ghost p': Process)
      requires Mirrors(r, p) && p.listening && p.handOver.Idle?
      modifies this`state
      ensures Mirrors(r', p') && r'.from == r.from && shared.record == old(shared.record)
      ensures state == Updating && p' == p.(state := Updating, handOver := Asked(Update))
    {
      state := Updating;
      r' := Then(r, By(me, BeginHandOver));
      p' := r'.w.procs[me];
    }

    /** What is done whatever ended the serve: the pipe is released, and a stop is marked. */
    method Leave(files: Files, ghost r: Run, ghost p: Process) returns (ghost r': Run, ghost p': Process)
      requires Mirrors(r, p) && p.pc.Closing? && p.main.Idle? && shared.pipe == Some(me)
      modifies shared
      ensures Mirrors(r', p') && r'.from == r.from && shared.pipe.None?
      ensures shared.record
           == if state.Stopping? then AfterMark(old(shared.record), me, Stopped, files.read, files.writes)
              else old(shared.record)
      ensures p'.pc.Ending? && p'.threw == p.threw && (p'.main.Idle? || p'.main.Done?)
    {
      r' := Then(r, By(me, ReleasePipe));
      shared.pipe := None;
      r' := Then(r', By(me, FinallyMark));
      p' := r'.w.procs[me];
      if state.Stopping? {
        ghost var m;
        r', p', m := EndedCleanly(Stopped, files, Main, r', p');
      }
    }

    /** The pipe was taken: the serve, and what is left after it. */
    method ServeAndLeave(fate: Fate, files: Files, ghost r: Run)
      returns (throws: bool, ghost r': Run, ghost p': Process)
      requires Mirrors(r, FRESH_PROCESS.(pc := Holding)) && shared.pipe == Some(me) && Ends(fate)
      modifies this`state, shared
      ensures Mirrors(r', p') && r'.from == r.from && shared.pipe.None? && throws == ThrowsAtAll(fate)
      ensures p'.pc.Ending? && p'.threw == throws && (p'.main.Idle? || p'.main.Done?)
      ensures shared.record == Left(old(shared.record), me, fate, files)
    {
      throws, r', p' := Serve(fate, files, r);
      r', p' := Leave(files, r', p');
    }

    /** The whole program: the root is judged, the pipe is taken or found taken, unless something fails before
    that, and what was taken is left.
    What it leaves in the record reads as a crash exactly when it recorded its start and no mark was due, or
    the record could not be read or written for the mark that was. */
    method RunTheBackground(mayServe: bool, fails: bool, alive: Id -> bool, fate: Fate, files: Files, ghost r: Run)
      returns (exitCode: nat, ghost r': Run)
      requires Mirrors(r, FRESH_PROCESS) && shared.pipe != Some(me) && forall id :: alive(id) == IsAlive(r.w, id)
      requires !Names(shared.record, me) && Ends(fate)
      modifies this`state, shared
      ensures IsWhole(r') && r'.from == r.from && shared.Shows(r'.w)
      ensures shared.pipe == old(shared.pipe)
      ensures me in r'.w.procs && r'.w.procs[me].death
           == if mayServe && (fails || (old(shared.pipe).None? && ThrowsAtAll(fate))) then Death.Threw else Returned
      ensures mayServe && fails ==> exitCode == 1 && shared.record == old(shared.record)
      ensures !mayServe ==> exitCode == 1 && shared.record == AfterRefusal(old(shared.record), me, alive, files)
      ensures mayServe && !fails && old(shared.pipe).Some? ==> exitCode == 0 && shared.record == old(shared.record)
      ensures mayServe && !fails && old(shared.pipe).None? ==>
        && exitCode == (if ThrowsAtAll(fate) then 1 else 0)
        && (if files.started then Names(shared.record, me) else shared.record == old(shared.record))
        && (ReadsAsCrash(r'.w, me) <==> files.started && (Due(fate).None? || !files.read || !files.writes))
        && (files.started && !ReadsAsCrash(r'.w, me) ==> shared.record == Some(Record(me, Due(fate))))
    {
      if !mayServe {
        r' := RecordTheRefusal(alive, files, r);
        return 1, r';
      }
      exitCode, r' := TakeThePipe(fails, fate, files, r);
    }

    /** The same, of a root that may serve. */
    method TakeThePipe(fails: bool, fate: Fate, files: Files, ghost r: Run) returns (exitCode: nat, ghost r': Run)
      requires Mirrors(r, FRESH_PROCESS) && shared.pipe != Some(me) && Ends(fate)
      modifies this`state, shared
      ensures IsWhole(r') && r'.from == r.from && shared.Shows(r'.w)
      ensures shared.pipe == old(shared.pipe)
      ensures exitCode == if fails || (old(shared.pipe).None? && ThrowsAtAll(fate)) then 1 else 0
      ensures me in r'.w.procs && r'.w.procs[me].death == if exitCode == 1 then Death.Threw else Returned
      ensures shared.record
           == if fails || old(shared.pipe).Some? then old(shared.record) else Left(old(shared.record), me, fate, files)
    {
      if fails {
        r' := Then(r, By(me, Throw));
        return 1, r';
      }
      r' := Then(r, By(me, TakePipe));
      if shared.pipe.Some? {
        return 0, r';
      }
      shared.pipe := Some(me);
      var throws;
      ghost var p;
      throws, r', p := ServeAndLeave(fate, files, r');
      r' := Then(r', By(me, Return));
      return if throws then 1 else 0, r';
    }
  }

  // ----- a person's start -----

  /** Clears a recorded crash that it can read, and nothing else. A record that cannot be deleted ends the
  start by what the deletion throws. */
  method ClearARecordedCrash(shared: Shared, alive: Id -> bool, read: bool, clears: bool, ghost n: nat, ghost r: Run)
    returns (throws: bool, ghost r': Run)
    requires IsWhole(r) && shared.Shows(r.w) && n in r.w.persons && r.w.persons[n].Clearing?
    requires forall id :: alive(id) == IsAlive(r.w, id)
    modifies shared`record
    ensures IsWhole(r') && r'.from == r.from && shared.Shows(r'.w)
    ensures n in r'.w.persons && r'.w.persons[n] == if throws then NotShown else Running
    ensures r'.w.procs == r.w.procs && r'.w.pipe == r.w.pipe && r'.w.kills == r.w.kills
    ensures var crashed := old(shared.record).Some? && ReadsAsCrash(r.w, old(shared.record).value.who);
      && throws == (read && crashed && !clears)
      && shared.record == if read && crashed && clears then None else old(shared.record)
  {
    r' := Then(r, Person(n, ClearRead(read)));
    var record := if read then shared.record else None;
    if record.None? || record.value.ended.Some? || alive(record.value.who) {
      return false, r';
    }
    if !clears {
      r' := Then(r', Person(n, ClearFails));
      return true, r';
    }
    r' := Then(r', Person(n, ClearWrite));
    shared.record := None;
    return false, r';
  }

  /** Ends the process the record names, if it can be read, its pid is the one the pipe reported and its
  verified identity can be ended; with it goes the pipe if it held it. */
  method EndTheHungBackground(shared: Shared, pid: Option<nat>, read: bool, installed: bool, ends: bool, clears: bool,
      ghost n: nat, ghost r: Run)
    returns (ended: bool, throws: bool, ghost r': Run)
    requires IsWhole(r) && shared.Shows(r.w) && n in r.w.persons && r.w.persons[n].Hung?
        && r.w.persons[n].reported == pid
    requires ends && shared.record.Some? ==> IsAlive(r.w, shared.record.value.who)
    modifies shared
    ensures IsWhole(r') && r'.from == r.from && shared.Shows(r'.w)
    ensures ended == (pid.Some? && read && old(shared.record).Some? && old(shared.record).value.who.pid == pid.value
        && installed && ends)
    ensures throws == (ended && !clears)
    ensures !ended ==>
      && shared.record == old(shared.record) && shared.pipe == old(shared.pipe)
      && r'.w.procs == r.w.procs && r'.w.kills == r.w.kills
    ensures n in r'.w.persons && r'.w.persons[n] == if ended && clears then Running else NotShown
    ensures ended ==> var who := old(shared.record).value.who;
              && |r'.w.kills| == |r.w.kills| + 1 && r'.w.kills[|r.w.kills|].target == who
              && shared.record == (if clears then None else old(shared.record))
              && shared.pipe == (if old(shared.pipe) == Some(who) then None else old(shared.pipe))
              && r'.w.procs == r.w.procs[who := r.w.procs[who].(death := Killed)]
  {
    r' := Then(r, Person(n, EndRead(read, installed)));
    var record := if read then shared.record else None;
    if pid.None? || record.None? || record.value.who.pid != pid.value || !installed {
      return false, false, r';
    }
    r' := Then(r', Person(n, EndKill(ends)));
    if !ends {
      return false, false, r';
    }
    if shared.pipe == Some(record.value.who) {
      shared.pipe := None;
    }
    if !clears {
      r' := Then(r', Person(n, ClearFails));
      return true, true, r';
    }
    r' := Then(r', Person(n, EndClear));
    shared.record := None;
    return true, false, r';
  }

  /** What one ask finds. */
  datatype Found = FoundNobody | FoundAnswer | FoundRefusal | FoundSilence(pidKnown: bool)

  /** The pipe as it stands can give that: an answer only from a holder that accepts and serves, a refusal only
  from one that accepts, and silence from any. */
  ghost predicate MayGive(w: World, found: Found) {
    match found
    case FoundNobody => true
    case FoundAnswer => w.pipe.Some? && Serves(w, w.pipe.value) && w.procs[w.pipe.value].state == Serving
    case FoundRefusal => w.pipe.Some? && Serves(w, w.pipe.value)
    case FoundSilence(_) => w.pipe.Some?
  }

  /** What one ask makes of a start: its first ask clears, ends or decides; a later one goes on or decides. */
  lemma AnAskIsMade(r: Run, n: nat, found: Found) returns (r': Run)
    requires IsWhole(r) && n in r.w.persons && (r.w.persons[n].Asking? || r.w.persons[n].Polling?)
    requires MayGive(r.w, found)
    ensures IsWhole(r') && r'.from == r.from
    ensures var w, first := r.w, r.w.persons[n].Asking?;
      var p := match found {
        case FoundAnswer => Shown(w.pipe.value)
        case FoundRefusal => NotShown
        case FoundNobody => if first then Clearing else Polling
        case FoundSilence(pidKnown) =>
          if first then Hung(w.pipe.value, if pidKnown then Some(w.pipe.value.pid) else None, w.now) else NotShown
      };
      r'.w == w.(now := w.now + 1, persons := w.persons[n := p])
  {
    match found
    case FoundNobody => r' := Then(r, Person(n, AskNobody));
    case FoundAnswer => r' := Then(r, Person(n, AskAnswered));
    case FoundRefusal => r' := Then(r, Person(n, AskRefused));
    case FoundSilence(pidKnown) => r' := Then(r, Person(n, AskNoAnswer(pidKnown)));
  }

  /** How the record, the processes and the scheduler answer one start. */
  datatype Luck = Luck(read: bool, clears: bool, installed: bool, ends: bool, runs: bool)

  datatype Result = ShownIt | NotShownIt | ThrewIt

  /** The first look that finds somebody is answered. */
  ghost predicate LooksFindAPage(looks: seq<Found>) {
    exists k :: 0 <= k < |looks| && looks[k] == FoundAnswer && forall i :: 0 <= i < k ==> looks[i] == FoundNobody
  }

  /** The poll, once the task was run. */
  method PollThePipe(shared: Shared, runs: bool, looks: seq<Found>, ghost n: nat, ghost r: Run)
    returns (result: Result, ghost r': Run)
    requires IsWhole(r) && shared.Shows(r.w) && n in r.w.persons && r.w.persons[n] == Running
    requires forall k :: 0 <= k < |looks| ==> MayGive(r.w, looks[k])
    ensures IsWhole(r') && r'.from == r.from && shared.Shows(r'.w)
    ensures result == if runs && LooksFindAPage(looks) then ShownIt else NotShownIt
    ensures n in r'.w.persons && r'.w.kills == r.w.kills && shared.record == old(shared.record)
    ensures if result.ShownIt? then r.w.pipe.Some? && r'.w.persons[n] == Shown(r.w.pipe.value)
            else r'.w.persons[n] == NotShown
  {
    r' := Then(r, Person(n, RunTask(runs)));
    if !runs {
      return NotShownIt, r';
    }
    for k := 0 to |looks|
      invariant IsWhole(r') && r'.from == r.from && shared.Shows(r'.w)
      invariant n in r'.w.persons && r'.w.persons[n] == Polling
      invariant r'.w.procs == r.w.procs && r'.w.pipe == r.w.pipe && r'.w.kills == r.w.kills
      invariant forall i :: 0 <= i < k ==> looks[i] == FoundNobody
    {
      assert MayGive(r.w, looks[k]);
      r' := AnAskIsMade(r', n, looks[k]);
      match looks[k] {
        case FoundAnswer => return ShownIt, r';
        case FoundRefusal => return NotShownIt, r';
        case FoundSilence(_) => return NotShownIt, r';
        case FoundNobody =>
      }
    }
    r' := Then(r', Person(n, GiveUp));
    return NotShownIt, r';
  }

  /** The record reads as a crash and can be read. */
  ghost predicate CrashIsRead(w: World, read: bool) {
    read && w.record.Some? && ReadsAsCrash(w, w.record.value.who)
  }

  /** The process the record names can be ended as hung: the record can be read, its pid is the one reported,
  the build is installed and its identity holds. */
  ghost predicate HungIsEnded(w: World, pid: Option<nat>, luck: Luck) {
    pid.Some? && luck.read && w.record.Some? && w.record.value.who.pid == pid.value && luck.installed && luck.ends
  }

  /** What is done before the task is run, when nobody answered the first ask: a recorded crash is cleared, or
  a silent background is ended and its record cleared. */
  method BeforeTheTask(shared: Shared, clearing: bool, pid: Option<nat>, luck: Luck, alive: Id -> bool,
      ghost n: nat, ghost r: Run)
    returns (goesOn: bool, throws: bool, ghost r': Run)
    requires IsWhole(r) && shared.Shows(r.w) && n in r.w.persons
    requires if clearing then r.w.persons[n].Clearing? else r.w.persons[n].Hung? && r.w.persons[n].reported == pid
    requires forall id :: alive(id) == IsAlive(r.w, id)
    requires luck.ends && shared.record.Some? ==> IsAlive(r.w, shared.record.value.who)
    modifies shared
    ensures IsWhole(r') && r'.from == r.from && shared.Shows(r'.w)
    ensures n in r'.w.persons && r'.w.persons[n] == if goesOn then Running else NotShown
    ensures var crash, ended := clearing && CrashIsRead(r.w, luck.read), !clearing && HungIsEnded(r.w, pid, luck);
      && throws == ((crash || ended) && !luck.clears)
      && goesOn == (if clearing then !throws else ended && luck.clears)
      && |r'.w.kills| == |r.w.kills| + (if ended then 1 else 0)
      && shared.record == (if luck.clears && (crash || ended) then None else old(shared.record))
      && (clearing ==> r'.w.procs == r.w.procs && r'.w.pipe == r.w.pipe)
  {
    if clearing {
      throws, r' := ClearARecordedCrash(shared, alive, luck.read, luck.clears, n, r);
      return !throws, throws, r';
    }
    var ended;
    ended, throws, r' := EndTheHungBackground(shared, pid, luck.read, luck.installed, luck.ends, luck.clears, n, r);
    return ended && !throws, throws, r';
  }

  /** What the first ask finds decides: an answer or a refusal ends the start at once, and no task is run. The
  task is run exactly when nobody was there, with a recorded crash cleared if one could be read, or when a
  silent background was ended and its record cleared; and then the looks decide. */
  method ShowAsync(shared: Shared, first: Found, looks: seq<Found>, luck: Luck, alive: Id -> bool,
      ghost n: nat, ghost r: Run)
    returns (result: Result, ran: bool, ghost r': Run)
    requires IsWhole(r) && shared.Shows(r.w) && n !in r.w.persons
    requires MayGive(r.w, first) && forall id :: alive(id) == IsAlive(r.w, id)
    requires luck.ends && shared.record.Some? ==> IsAlive(r.w, shared.record.value.who)
    requires forall k :: 0 <= k < |looks| ==> MayGive(r.w, looks[k])
    requires first.FoundSilence? ==> forall k :: 0 <= k < |looks| ==> looks[k] == FoundNobody
    modifies shared
    ensures IsWhole(r') && r'.from == r.from && shared.Shows(r'.w)
    ensures first == FoundAnswer ==> result == ShownIt
    ensures first == FoundRefusal ==> result == NotShownIt
    ensures var silent := first.FoundSilence?;
      var pid := if silent && first.pidKnown then Some(r.w.pipe.value.pid) else None;
      var crash := first == FoundNobody && CrashIsRead(r.w, luck.read);
      var ended := silent && HungIsEnded(r.w, pid, luck);
      && (ran <==> (first == FoundNobody && (crash ==> luck.clears)) || (ended && luck.clears))
      && (result == ThrewIt <==> (crash || ended) && !luck.clears)
      && |r'.w.kills| == |r.w.kills| + (if ended then 1 else 0)
      && shared.record == (if luck.clears && (crash || ended) then None else old(shared.record))
    ensures first != FoundAnswer ==> (result == ShownIt <==> ran && luck.runs && LooksFindAPage(looks))
    ensures n in r'.w.persons
    ensures if result == ShownIt then r.w.pipe.Some? && r'.w.persons[n] == Shown(r.w.pipe.value)
            else r'.w.persons[n] == NotShown
  {
    r' := Then(r, Person(n, Begin));
    r' := AnAskIsMade(r', n, first);
    if first == FoundAnswer {
      return ShownIt, false, r';
    }
    if first == FoundRefusal {
      return NotShownIt, false, r';
    }
    var pid := if first.FoundSilence? && first.pidKnown then Some(shared.pipe.value.pid) else None;
    var goesOn, throws;
    goesOn, throws, r' := BeforeTheTask(shared, first.FoundNobody?, pid, luck, alive, n, r');
    if !goesOn {
      return if throws then ThrewIt else NotShownIt, false, r';
    }
    result, r' := PollThePipe(shared, luck.runs, looks, n, r');
    ran := true;
  }
}
