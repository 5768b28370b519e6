/** The lifecycle protocol of the background, as a transition system.

Every process start, refused root, stop, update hand-over, session end, crash and person's
start is an `Event`. Processes share one pipe name, one record file and a logical clock that
every event advances. A process is identified by its pid and its creation time.

The record file is read and written in two separate steps, as the awaits of the code allow:
between the two any other event may happen. `Fresh` says of one write that the record still is
what it was at its own read, which is what a single indivisible read-check-write would guarantee. A
read can also fail, and the code then takes the record for absent. */
module Lifecycle {
  import opened Wrappers

  datatype Id = Id(pid: nat, created: nat)

  datatype End = Stopped | Update | SessionEnding | EndCommand | Refused

  /** The record file: the process it names and the end mark it carries, if any. */
  datatype Record = Record(who: Id, ended: Option<End>)

  datatype State = Serving | Updating | Stopping

  /** How a clean-end mark came out. */
  datatype MarkResult = Wrote | WriteFailed | ReadFailed | NamesAnother

  /** One clean-end mark under way: asked for, read and not yet written, or over. */
  datatype Marking = Idle | Asked(how: End) | Read(how: End, seen: Record) | Done(result: MarkResult)

  /** The three activities of a background that mark its record. */
  datatype Thread = Main | HandOver | Window

  datatype Pc =
    | Stranger                                // not a background: any other user of a pid
    | Starting                                // its root is not judged yet
    | RootRefused                             // its root was refused, the record is not read yet
    | RefusalPending(before: Option<Record>, seen: bool)  // it will write its refusal; at its read the record
                                              // was `before`, and `seen` says whether the read returned that
    | LostPipe                                // another background held the pipe
    | Holding                                 // it took the pipe, and has not tried its record
    | Recorded                                // it tried to write its "started" record
    | Accepting                               // it accepts connections
    | Closing                                 // it left its loop or threw, and still holds the pipe
    | Disposing                               // the pipe is released, its sessions are closing
    | Ending                                  // past the decision whether to mark a stop

  datatype Death = Alive | Returned | Threw | WindowsEnded | Crashed | Killed

  datatype Process = Process(
    pc: Pc,
    death: Death,
    state: State,
    tried: bool,       // it has tried its "started" write
    started: bool,     // and that write succeeded
    listening: bool,   // its pipe was told to accept
    cancelled: bool,
    lost: bool,        // its listener failed, and the pipe's name with it
    threw: bool,
    main: Marking,
    handOver: Marking,
    window: Marking,
    windowMarked: bool) // a mark of its window was written, of this notice or of one before

  /** A person's start. `asked` is the process that took the connection, which the code does not
  know; it knows the pid the pipe reported. */
  datatype Person =
    | Asking
    | Clearing
    | ClearPending(dead: Record)
    | Hung(asked: Id, reported: Option<nat>, askedAt: nat)
    | EndPending(asked: Id, pid: nat, askedAt: nat, victim: Record)
    | ClearAfterEnd(ended: Record)
    | Running
    | Polling
    | Shown(answerer: Id)
    | NotShown

  /** A process a person's start ended. */
  datatype Kill = Kill(target: Id, asked: Id, reported: nat, askedAt: nat, at: nat)

  /** `relays` are the relays that read the record of a process that is gone, and will write it again with
  what they saw of its end; that note itself is not part of the model. */
  datatype World = World(
    now: nat,
    procs: map<Id, Process>,
    pipe: Option<Id>,
    record: Option<Record>,
    persons: map<nat, Person>,
    relays: map<nat, Record>,
    wrote: set<Id>,
    kills: seq<Kill>)

  const INIT := World(0, map[], None, None, map[], map[], {}, [])

  const FRESH_PROCESS :=
    Process(Starting, Alive, Serving, false, false, false, false, false, false, Idle, Idle, Idle, false)

  /** What one background's own code does, or what ends it. */
  datatype Act =
    | RefuseRoot
    | RefusalRead(read: bool)
    | RefusalWrite(ok: bool)
    | TakePipe
    | WriteStarted(ok: bool)
    | StartAccepting
    | ListenerFails
    | StopVerb
    | BeginHandOver
    | CancelAfterHandOver
    | Notice(how: End)
    | MarkRead(thread: Thread, read: bool)
    | MarkWrite(thread: Thread, ok: bool)
    | LeaveLoop
    | Throw
    | ReleasePipe
    | DisposeThrows
    | FinallyMark
    | Return
    | WindowsEnds
    | Crash

  /** What one person's start does, with what it is answered. */
  datatype Move =
    | Begin
    | AskNobody
    | AskAnswered
    | AskRefused
    | AskNoAnswer(pidKnown: bool)
    | ClearRead(read: bool)
    | ClearWrite
    | EndRead(read: bool, installed: bool)
    | EndKill(ok: bool)
    | EndClear
    | ClearFails
    | RunTask(ok: bool)
    | GiveUp

  datatype Event =
    | Spawn(pid: nat, background: bool)
    | By(id: Id, act: Act)
    | Person(n: nat, move: Move)
    | RelayReads(n: nat, gone: Id)
    | RelayWrites(n: nat, ok: bool)

  // ----- reading the world -----

  predicate IsAlive(w: World, id: Id) {
    id in w.procs && w.procs[id].death.Alive?
  }

  predicate HoldsPc(p: Process) {
    p.death.Alive? && !p.lost && (p.pc.Holding? || p.pc.Recorded? || p.pc.Accepting? || p.pc.Closing?)
  }

  predicate Names(record: Option<Record>, id: Id) {
    record.Some? && record.value.who == id
  }

  /** What a relay and a person's start read as a crash: no end mark, and a process that is gone. */
  predicate ReadsAsCrash(w: World, id: Id) {
    w.record == Some(Record(id, None)) && !IsAlive(w, id)
  }

  function MarkingOf(p: Process, t: Thread): Marking {
    match t
    case Main => p.main
    case HandOver => p.handOver
    case Window => p.window
  }

  function WithMarking(p: Process, t: Thread, m: Marking): Process {
    match t
    case Main => p.(main := m)
    case HandOver => p.(handOver := m)
    case Window => p.(window := m)
  }

  /** A clean-end mark of its own was written. */
  predicate Marked(p: Process) {
    p.main == Done(Wrote) || p.handOver == Done(Wrote) || p.windowMarked
  }

  predicate Serves(w: World, id: Id) {
    IsAlive(w, id) && w.procs[id].listening && (w.procs[id].pc.Accepting? || w.procs[id].pc.Closing?)
  }

  // ----- what may happen -----

  predicate MayAct(w: World, p: Process, act: Act) {
    match act
    case RefuseRoot => p.pc.Starting?
    case RefusalRead(_) => p.pc.RootRefused?
    case RefusalWrite(_) => p.pc.RefusalPending?
    case TakePipe => p.pc.Starting?
    case WriteStarted(_) => p.pc.Holding?
    case StartAccepting => p.pc.Recorded?
    case ListenerFails => p.listening && HoldsPc(p)
    case StopVerb => p.listening && (p.pc.Accepting? || p.pc.Closing?)
    case BeginHandOver => p.listening && p.handOver.Idle?
    case CancelAfterHandOver => p.handOver.Done?
    case Notice(how) =>
      && (p.pc.Recorded? || p.pc.Accepting? || (p.pc.Closing? && p.tried))
      && (how.SessionEnding? || how.EndCommand?)
      && (p.window.Idle? || p.window.Done?)
    case MarkRead(t, _) => MarkingOf(p, t).Asked?
    case MarkWrite(t, _) => MarkingOf(p, t).Read?
    case LeaveLoop => p.pc.Accepting? && p.cancelled
    case Throw => p.pc.Starting? || p.pc.Holding? || p.pc.Recorded? || p.pc.Accepting? || p.pc.Closing?
    case ReleasePipe => p.pc.Closing?
    case DisposeThrows => p.pc.Closing? || p.pc.Disposing?
    case FinallyMark => p.pc.Disposing?
    case Return => p.pc.Ending? && (p.main.Idle? || p.main.Done?)
    case WindowsEnds => true
    case Crash => true
  }

  predicate MayMove(w: World, n: nat, move: Move) {
    if n !in w.persons then move.Begin?
    else
      var p := w.persons[n];
      var asks := p.Asking? || p.Polling?;
      match move
      case Begin => false
      case AskNobody => asks
      case AskAnswered => asks && w.pipe.Some? && Serves(w, w.pipe.value) && w.procs[w.pipe.value].state.Serving?
      case AskRefused => asks && w.pipe.Some? && Serves(w, w.pipe.value)
      case AskNoAnswer(_) => asks && w.pipe.Some?
      case ClearRead(_) => p.Clearing?
      case ClearWrite => p.ClearPending?
      case EndRead(_, _) => p.Hung?
      case EndKill(ok) => p.EndPending? && (ok ==> IsAlive(w, p.victim.who))
      case EndClear => p.ClearAfterEnd?
      case ClearFails => p.ClearPending? || p.ClearAfterEnd?
      case RunTask(_) => p.Running?
      case GiveUp => p.Polling?
  }

  predicate Enabled(w: World, e: Event) {
    match e
    case Spawn(pid, _) => forall q :: q in w.procs && w.procs[q].death.Alive? ==> q.pid != pid
    case By(id, act) => IsAlive(w, id) && MayAct(w, w.procs[id], act)
    case Person(n, move) => MayMove(w, n, move)
    case RelayReads(n, gone) =>
      n !in w.relays && gone in w.procs && !IsAlive(w, gone) && w.record == Some(Record(gone, None))
    case RelayWrites(n, _) => n in w.relays
  }

  // ----- what it does -----

  /** What an act leaves of its process, of the pipe and of the record. `author` says that the act
  wrote a record naming its own process as started or refused. */
  datatype Outcome = Outcome(p: Process, pipe: Option<Id>, record: Option<Record>, author: bool)

  /** A process is gone, and the pipe with it if it held it. */
  function Gone(w: World, id: Id, p: Process, how: Death): Outcome {
    Outcome(p.(death := how), if w.pipe == Some(id) then None else w.pipe, w.record, false)
  }

  function Continues(w: World, p: Process): Outcome {
    Outcome(p, w.pipe, w.record, false)
  }

  function OutcomeOf(w: World, id: Id, act: Act): Outcome
    requires IsAlive(w, id) && MayAct(w, w.procs[id], act)
  {
    var p := w.procs[id];
    var stopped := if p.state.Serving? then Stopping else p.state;
    match act
    case RefuseRoot => Continues(w, p.(pc := RootRefused))
    case RefusalRead(read) =>
      if read && w.record.Some? && w.record.value.who.pid != id.pid && IsAlive(w, w.record.value.who)
      then Gone(w, id, p, Returned)
      else Continues(w, p.(pc := RefusalPending(w.record, read)))
    case RefusalWrite(ok) =>
      var o := Gone(w, id, p, Returned);
      if ok then o.(record := Some(Record(id, Some(Refused))), author := true) else o
    case TakePipe =>
      if w.pipe.None?
      then Continues(w, p.(pc := Holding)).(pipe := Some(id))
      else Continues(w, p.(pc := LostPipe, death := Returned))
    case WriteStarted(ok) =>
      var o := Continues(w, p.(pc := Recorded, tried := true, started := ok));
      if ok then o.(record := Some(Record(id, None)), author := true) else o
    case StartAccepting => Continues(w, p.(pc := Accepting, listening := true))
    case ListenerFails => Continues(w, p.(lost := true)).(pipe := None)
    case StopVerb => Continues(w, p.(state := stopped, cancelled := true))
    case BeginHandOver => Continues(w, p.(state := Updating, handOver := Asked(Update)))
    case CancelAfterHandOver => Continues(w, p.(cancelled := true))
    case Notice(how) => Continues(w, p.(window := Asked(how)))
    case MarkRead(t, read) =>
      var m := MarkingOf(p, t);
      Continues(w, WithMarking(p, t, if !read then Done(ReadFailed)
                                     else if Names(w.record, id) then Read(m.how, w.record.value)
                                     else Done(NamesAnother)))
    case MarkWrite(t, ok) =>
      var m := MarkingOf(p, t);
      if ok
      then
        var p' := WithMarking(p, t, Done(Wrote)).(windowMarked := p.windowMarked || t.Window?);
        Continues(w, p').(record := Some(m.seen.(ended := Some(m.how))))
      else Continues(w, WithMarking(p, t, Done(WriteFailed)))
    case LeaveLoop => Continues(w, p.(pc := Closing, state := stopped))
    case Throw =>
      if p.pc.Starting? then Gone(w, id, p, Threw) else Continues(w, p.(pc := Closing, threw := true))
    case ReleasePipe => Continues(w, p.(pc := Disposing)).(pipe := if w.pipe == Some(id) then None else w.pipe)
    case DisposeThrows => Gone(w, id, p, Threw)
    case FinallyMark => Continues(w, p.(pc := Ending, main := if p.state.Stopping? then Asked(Stopped) else Idle))
    case Return => Gone(w, id, p, if p.threw then Threw else Returned)
    case WindowsEnds => Gone(w, id, p, WindowsEnded)
    case Crash => Gone(w, id, p, Crashed)
  }

  function Changed(w: World, id: Id, o: Outcome): World {
    w.(now := w.now + 1, procs := w.procs[id := o.p], pipe := o.pipe, record := o.record,
       wrote := if o.author then w.wrote + {id} else w.wrote)
  }

  /** What a move leaves of its person's start. */
  function PersonAfter(w: World, n: nat, move: Move): Person
    requires MayMove(w, n, move)
  {
    match move
    case Begin => Asking
    case AskNobody => if w.persons[n].Asking? then Clearing else Polling
    case AskAnswered => Shown(w.pipe.value)
    case AskRefused => NotShown
    case AskNoAnswer(pidKnown) =>
      if w.persons[n].Asking?
      then Hung(w.pipe.value, if pidKnown then Some(w.pipe.value.pid) else None, w.now)
      else NotShown
    case ClearRead(read) =>
      if read && w.record.Some? && w.record.value.ended.None? && !IsAlive(w, w.record.value.who)
      then ClearPending(w.record.value)
      else Running
    case ClearWrite => Running
    case EndRead(read, installed) =>
      var h := w.persons[n];
      if read && h.reported.Some? && w.record.Some? && w.record.value.who.pid == h.reported.value && installed
      then EndPending(h.asked, h.reported.value, h.askedAt, w.record.value)
      else NotShown
    case EndKill(ok) => if ok then ClearAfterEnd(w.persons[n].victim) else NotShown
    case EndClear => Running
    case ClearFails => NotShown
    case RunTask(ok) => if ok then Polling else NotShown
    case GiveUp => NotShown
  }

  function Moved(w: World, n: nat, p: Person, record: Option<Record>): World {
    w.(now := w.now + 1, persons := w.persons[n := p], record := record)
  }

  /** The process a person's start ends, and the log entry that says so. */
  function Ended(w: World, n: nat): World
    requires MayMove(w, n, EndKill(true))
  {
    var h := w.persons[n];
    Changed(w, h.victim.who, Gone(w, h.victim.who, w.procs[h.victim.who], Killed))
    .(kills := w.kills + [Kill(h.victim.who, h.asked, h.pid, h.askedAt, w.now)])
  }

  function Relayed(w: World, relays: map<nat, Record>, record: Option<Record>): World {
    w.(now := w.now + 1, relays := relays, record := record)
  }

  function Step(w: World, e: Event): World
    requires Enabled(w, e)
  {
    match e
    case Spawn(pid, background) =>
      var p := if background then FRESH_PROCESS else FRESH_PROCESS.(pc := Stranger);
      w.(now := w.now + 1, procs := w.procs[Id(pid, w.now) := p])
    case By(id, act) => Changed(w, id, OutcomeOf(w, id, act))
    case Person(n, move) =>
      var p := PersonAfter(w, n, move);
      if move == EndKill(true) then Moved(Ended(w, n), n, p, w.record)
      else Moved(w, n, p, if move.ClearWrite? || move.EndClear? then None else w.record)
    case RelayReads(n, gone) => Relayed(w, w.relays[n := w.record.value], w.record)
    case RelayWrites(n, ok) => Relayed(w, w.relays - {n}, if ok then Some(w.relays[n]) else w.record)
  }

  /** Whether a write of the record meets the record as it was at its own read. */
  predicate Fresh(w: World, e: Event)
    requires Enabled(w, e)
  {
    match e
    case By(id, RefusalWrite(_)) => w.record == w.procs[id].pc.before
    case By(id, MarkWrite(t, _)) => w.record == Some(MarkingOf(w.procs[id], t).seen)
    case Person(n, ClearWrite) => w.record == Some(w.persons[n].dead)
    case Person(n, EndClear) => w.record == Some(w.persons[n].ended)
    case RelayWrites(n, _) => w.record == Some(w.relays[n])
    case _ => true
  }

  /** Whether a refused root writes its refusal although it could not read the record. */
  predicate WritesUnread(w: World, e: Event)
    requires Enabled(w, e)
  {
    e.By? && e.act == RefusalWrite(true) && !w.procs[e.id].pc.seen
  }

  // ----- runs -----

  predicate IsRun(w: World, es: seq<Event>)
    decreases |es|
  {
    es == [] || (Enabled(w, es[0]) && IsRun(Step(w, es[0]), es[1..]))
  }

  function After(w: World, es: seq<Event>): World
    requires IsRun(w, es)
    decreases |es|
  {
    if es == [] then w else After(Step(w, es[0]), es[1..])
  }

  /** Every read-check-write of the record in the run is indivisible. */
  predicate IsIndivisible(w: World, es: seq<Event>)
    requires IsRun(w, es)
    decreases |es|
  {
    es == [] || (Fresh(w, es[0]) && IsIndivisible(Step(w, es[0]), es[1..]))
  }

  /** No refusal in the run is written after a read that failed. */
  predicate IsRead(w: World, es: seq<Event>)
    requires IsRun(w, es)
    decreases |es|
  {
    es == [] || (!WritesUnread(w, es[0]) && IsRead(Step(w, es[0]), es[1..]))
  }
}
