/** The pass-through that ends its server once: after a configured number of answered calls, and in one
launch only of those that share a marker file. */
module DyingShim {
  import opened Wrappers

  /** An id as its text, which is what the shim keeps. */
  type Key = string

  /** `dieAfter` is 0 for never; `once` says that a marker is configured. */
  datatype Config = Config(dieAfter: nat, once: bool)

  datatype State = State(
    callIds: set<Key>,
    answered: nat,
    ending: bool,
    calls: nat,          // calls seen on the way in
    bodies: nat,         // how often the ending body ran
    forCount: Option<nat>) // the answers counted when it ran for the count

  const FRESH := State({}, 0, false, 0, 0, None)

  datatype Event =
    | FromClient(id: Option<Key>, isCall: bool)
    | FromServer(id: Option<Key>)
    | InputEnds

  predicate Matches(s: State, e: Event) {
    e.FromServer? && e.id.Some? && e.id.value in s.callIds
  }

  predicate CountsOut(c: Config, answered: nat, marker: bool) {
    c.dieAfter > 0 && answered >= c.dieAfter && !(c.once && marker)
  }

  function Ended(s: State, forCount: bool): State {
    if s.ending then s
    else s.(ending := true, bodies := s.bodies + 1, forCount := if forCount then Some(s.answered) else None)
  }

  /** What one event makes of the shim and of the marker. */
  function Next(c: Config, s: State, marker: bool, e: Event): (State, bool) {
    match e
    case FromClient(id, isCall) =>
      (if isCall && id.Some? then s.(callIds := s.callIds + {id.value}, calls := s.calls + 1) else s, marker)
    case FromServer(id) =>
      if !Matches(s, e) then (s, marker)
      else
        var t := s.(callIds := s.callIds - {id.value}, answered := s.answered + 1);
        if CountsOut(c, t.answered, marker) then (Ended(t, true), marker || c.once) else (t, marker)
    case InputEnds => (Ended(s, false), marker)
  }

  /** One launch. */
  function Launch(c: Config, s: State, marker: bool, es: seq<Event>): (State, bool)
    decreases |es|
  {
    if es == [] then (s, marker)
    else
      var (t, marker') := Next(c, s, marker, es[0]);
      Launch(c, t, marker', es[1..])
  }

  /** Launches one after the other, and how each of them came out. */
  function Launches(c: Config, marker: bool, runs: seq<seq<Event>>): seq<State>
    decreases |runs|
  {
    if runs == [] then []
    else
      var (s, marker') := Launch(c, FRESH, marker, runs[0]);
      [s] + Launches(c, marker', runs[1..])
  }

  // ----- one launch -----

  ghost predicate Inv(c: Config, s: State, began: bool, marker: bool) {
    && s.answered + |s.callIds| <= s.calls
    && s.bodies == (if s.ending then 1 else 0)
    && (s.forCount.Some? ==> s.ending && s.forCount.value == c.dieAfter > 0 && (c.once ==> marker && !began))
    && (marker <==> began || (c.once && s.answered >= c.dieAfter > 0))
    && (!c.once && s.answered >= c.dieAfter > 0 ==> s.ending)
  }

  lemma NextKeeps(c: Config, s: State, began: bool, marker: bool, e: Event)
    requires Inv(c, s, began, marker)
    ensures var (t, marker') := Next(c, s, marker, e); Inv(c, t, began, marker')
  {
    if Matches(s, e) {
      assert |s.callIds - {e.id.value}| == |s.callIds| - 1;
    }
  }

  /** In every launch the answers counted are at most the calls seen, the ending body runs at most once,
  and if it runs for the count, it runs at the configured count. */
  lemma {:induction false} LaunchKeeps(c: Config, s: State, began: bool, marker: bool, es: seq<Event>)
    requires Inv(c, s, began, marker)
    ensures var (t, marker') := Launch(c, s, marker, es); Inv(c, t, began, marker')
    decreases |es|
  {
    if es != [] {
      NextKeeps(c, s, began, marker, es[0]);
      var (t, marker') := Next(c, s, marker, es[0]);
      LaunchKeeps(c, t, began, marker', es[1..]);
    }
  }

  // ----- one launch, told from its events alone -----

  /** The calls among the events. */
  function CallsIn(es: seq<Event>): nat {
    if es == [] then 0
    else
      var before, last := es[..|es| - 1], es[|es| - 1];
      CallsIn(before) + (if last.FromClient? && last.isCall && last.id.Some? then 1 else 0)
  }

  /** A call of that id came and no answer to it since. */
  predicate Waits(es: seq<Event>, id: Key) {
    es != [] &&
      var before, last := es[..|es| - 1], es[|es| - 1];
      last == FromClient(Some(id), true) || (Waits(before, id) && last != FromServer(Some(id)))
  }

  /** The answers to calls that waited for them. */
  function AnswersIn(es: seq<Event>): nat {
    if es == [] then 0
    else
      var before, last := es[..|es| - 1], es[|es| - 1];
      AnswersIn(before) + (if last.FromServer? && last.id.Some? && Waits(before, last.id.value) then 1 else 0)
  }

  /** The configured count is reached before the input ended, in a launch that found no marker. */
  predicate Dies(c: Config, began: bool, es: seq<Event>) {
    es != [] &&
      var before := es[..|es| - 1];
      || Dies(c, began, before)
      || (AnswersIn(before) < AnswersIn(es) == c.dieAfter && !(c.once && began) && InputEnds !in before)
  }

  lemma {:induction false} LaunchOfOneMore(c: Config, s: State, marker: bool, es: seq<Event>, e: Event)
    ensures var (t, m) := Launch(c, s, marker, es);
      Launch(c, s, marker, es + [e]) == Next(c, t, m, e)
    decreases |es|
  {
    if es == [] {
      assert [] + [e] == [e] && [e][1..] == [];
    } else {
      assert (es + [e])[0] == es[0] && (es + [e])[1..] == es[1..] + [e];
      var (t, m) := Next(c, s, marker, es[0]);
      LaunchOfOneMore(c, t, m, es[1..], e);
    }
  }

  ghost predicate TellsHistory(c: Config, began: bool, es: seq<Event>, s: State, marker: bool) {
    && s.calls == CallsIn(es) && s.answered == AnswersIn(es)
    && (forall id :: id in s.callIds <==> Waits(es, id))
    && (s.forCount.Some? <==> Dies(c, began, es)) && (s.forCount.Some? ==> s.ending)
    && (s.ending <==> InputEnds in es || (c.dieAfter > 0 && AnswersIn(es) >= c.dieAfter && !(c.once && began)))
    && (marker <==> began || (c.once && c.dieAfter > 0 && AnswersIn(es) >= c.dieAfter))
  }

  lemma OfOneMore(c: Config, began: bool, es: seq<Event>, e: Event)
    ensures CallsIn(es + [e]) == CallsIn(es) + (if e.FromClient? && e.isCall && e.id.Some? then 1 else 0)
    ensures AnswersIn(es + [e])
         == AnswersIn(es) + (if e.FromServer? && e.id.Some? && Waits(es, e.id.value) then 1 else 0)
    ensures forall id :: Waits(es + [e], id) <==>
      e == FromClient(Some(id), true) || (Waits(es, id) && e != FromServer(Some(id)))
    ensures InputEnds in es + [e] <==> InputEnds in es || e == InputEnds
    ensures Dies(c, began, es + [e]) <==>
      || Dies(c, began, es)
      || (AnswersIn(es) < AnswersIn(es + [e]) == c.dieAfter && !(c.once && began) && InputEnds !in es)
  {
    var more := es + [e];
    assert more[..|more| - 1] == es && more[|more| - 1] == e;
  }

  lemma ACallIsTold(c: Config, began: bool, es: seq<Event>, s: State, marker: bool, id: Option<Key>, isCall: bool)
    requires TellsHistory(c, began, es, s, marker)
    ensures var (t, m) := Next(c, s, marker, FromClient(id, isCall));
      TellsHistory(c, began, es + [FromClient(id, isCall)], t, m)
  {
    OfOneMore(c, began, es, FromClient(id, isCall));
  }

  lemma AnAnswerIsTold(c: Config, began: bool, es: seq<Event>, s: State, marker: bool, id: Option<Key>)
    requires TellsHistory(c, began, es, s, marker)
    ensures var (t, m) := Next(c, s, marker, FromServer(id)); TellsHistory(c, began, es + [FromServer(id)], t, m)
  {
    OfOneMore(c, began, es, FromServer(id));
  }

  lemma AnEndIsTold(c: Config, began: bool, es: seq<Event>, s: State, marker: bool)
    requires TellsHistory(c, began, es, s, marker)
    ensures var (t, m) := Next(c, s, marker, InputEnds); TellsHistory(c, began, es + [InputEnds], t, m)
  {
    OfOneMore(c, began, es, InputEnds);
  }

  lemma OneMoreIsTold(c: Config, began: bool, es: seq<Event>, s: State, marker: bool, e: Event)
    requires TellsHistory(c, began, es, s, marker)
    ensures var (t, m) := Next(c, s, marker, e); TellsHistory(c, began, es + [e], t, m)
  {
    match e
    case FromClient(id, isCall) => ACallIsTold(c, began, es, s, marker, id, isCall);
    case FromServer(id) => AnAnswerIsTold(c, began, es, s, marker, id);
    case InputEnds => AnEndIsTold(c, began, es, s, marker);
  }

  /** In every launch: the calls, the answers and the ids that wait are those of its events; the server is ended
  for the count exactly when the configured count is reached, in a launch that found no marker and whose
  input had not ended; and the marker is there exactly if it was, or that count was reached. */
  lemma {:induction false} ALaunchTellsItsHistory(c: Config, began: bool, es: seq<Event>)
    ensures var (s, marker) := Launch(c, FRESH, began, es); TellsHistory(c, began, es, s, marker)
    decreases |es|
  {
    if es != [] {
      var before, last := es[..|es| - 1], es[|es| - 1];
      assert es == before + [last];
      ALaunchTellsItsHistory(c, began, before);
      LaunchOfOneMore(c, FRESH, began, before, last);
      var (s, marker) := Launch(c, FRESH, began, before);
      OneMoreIsTold(c, began, before, s, marker, last);
    }
  }

  // ----- all launches -----

  function EndedForCount(states: seq<State>): nat {
    if states == [] then 0 else (if states[0].forCount.Some? then 1 else 0) + EndedForCount(states[1..])
  }

  /** Of all launches that share a marker at most one ends its server for the count, and none does once
  the marker is there. */
  lemma {:induction false} OnlyOneDies(c: Config, marker: bool, runs: seq<seq<Event>>)
    requires c.once
    ensures EndedForCount(Launches(c, marker, runs)) <= if marker then 0 else 1
    ensures forall i :: 0 <= i < |Launches(c, marker, runs)| ==>
              var s := Launches(c, marker, runs)[i];
              s.answered <= s.calls && s.bodies <= 1 && (s.forCount.Some? ==> s.forCount.value == c.dieAfter)
    decreases |runs|
  {
    if runs != [] {
      LaunchKeeps(c, FRESH, marker, marker, runs[0]);
      var (s, marker') := Launch(c, FRESH, marker, runs[0]);
      OnlyOneDies(c, marker', runs[1..]);
      assert Launches(c, marker, runs)[1..] == Launches(c, marker', runs[1..]);
    }
  }

  /** The one that writes the marker is the one that dies for the count exactly when it was not ending
  already: a shim whose client has gone writes the marker and uses the one death up. */
  lemma TheMarkerWriterDiesUnlessEnding(c: Config, s: State, e: Event)
    requires c.once && Inv(c, s, false, false)
    ensures var (t, marker) := Next(c, s, false, e);
            && (marker <==> Matches(s, e) && c.dieAfter > 0 && s.answered + 1 == c.dieAfter)
            && (marker ==> (t.forCount == Some(c.dieAfter) <==> !s.ending))
  {
    if Matches(s, e) {
      assert |s.callIds - {e.id.value}| == |s.callIds| - 1;
    }
  }

  /** Such a run: one call, its client goes, its answer comes; no launch after it ever dies for the count. */
  lemma {:induction false} AClientThatLeavesUsesTheDeathUp(later: seq<seq<Event>>)
    ensures var c := Config(1, true);
            var first := [FromClient(Some("7"), true), InputEnds, FromServer(Some("7"))];
            && Launch(c, FRESH, false, first).1
            && EndedForCount(Launches(c, false, [first] + later)) == 0
  {
    var c := Config(1, true);
    var first := [FromClient(Some("7"), true), InputEnds, FromServer(Some("7"))];
    var s1 := FRESH.(callIds := {"7"}, calls := 1);
    var s2 := s1.(ending := true, bodies := 1);
    assert Next(c, FRESH, false, first[0]) == (s1, false) by { assert {} + {"7"} == {"7"}; }
    assert Next(c, s1, false, first[1]) == (s2, false);
    assert first[1..][1..] == [first[2]] && [first[2]][1..] == [];
    var (s3, marker) := Next(c, s2, false, first[2]);
    assert Launch(c, s2, false, [first[2]]) == (s3, marker);
    assert Launch(c, s1, false, first[1..]) == (s3, marker);
    assert Launch(c, FRESH, false, first) == (s3, marker);
    assert ([first] + later)[1..] == later;
    OnlyOneDies(c, true, later);
    assert Launches(c, false, [first] + later) == [s3] + Launches(c, true, later);
    assert ([s3] + Launches(c, true, later))[1..] == Launches(c, true, later);
  }

  // ----- the program -----

  class Marker {
    var there: bool

    constructor (there: bool)
      ensures this.there == there
    {
      this.there := there;
    }
  }

  class Shim {
    const config: Config
    const marker: Marker
    var callIds: set<Key>
    var answered: nat
    var ending: bool
    ghost var calls: nat
    ghost var bodies: nat
    ghost var forCount: Option<nat>

    ghost function Now(): State
      reads this
    {
      State(callIds, answered, ending, calls, bodies, forCount)
    }

    constructor (config: Config, marker: Marker)
      ensures Now() == FRESH && this.config == config && this.marker == marker
    {
      this.config, this.marker := config, marker;
      callIds, answered, ending := {}, 0, false;
      calls, bodies, forCount := 0, 0, None;
    }

    method EndTheServer(count: bool)
      modifies this`ending, this`bodies, this`forCount
      ensures Now() == Ended(old(Now()), count)
    {
      if ending {
        return;
      }
      ending := true;
      bodies := bodies + 1;
      forCount := if count then Some(answered) else None;
    }

    method FromClient(id: Option<Key>, isCall: bool)
      modifies this
      ensures (Now(), marker.there) == Next(config, old(Now()), old(marker.there), Event.FromClient(id, isCall))
    {
      if isCall && id.Some? {
        callIds := callIds + {id.value};
        calls := calls + 1;
      }
    }

    method FromServer(id: Option<Key>)
      modifies this, marker
      ensures (Now(), marker.there) == Next(config, old(Now()), old(marker.there), Event.FromServer(id))
    {
      if id.Some? && id.value in callIds {
        callIds := callIds - {id.value};
        answered := answered + 1;
        var alreadyDiedOnce := config.once && marker.there;
        if config.dieAfter > 0 && answered >= config.dieAfter && !alreadyDiedOnce {
          if config.once {
            marker.there := true;
          }
          EndTheServer(true);
        }
      }
    }

    method InputEnds()
      modifies this
      ensures (Now(), marker.there) == Next(config, old(Now()), old(marker.there), Event.InputEnds)
    {
      EndTheServer(false);
    }
  }
}
