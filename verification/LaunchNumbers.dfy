/** The launch numbers that concurrent processes take by creating files exclusively.

Each launch tries 1, 2, 3, ... and takes the first number whose file it creates; a launch that finds all
of 1 to 999 taken keeps the number 0. Launches interleave freely, one exclusive create at a time. */
module LaunchNumbers {

  const LIMIT: nat := 1000

  datatype Launch = Trying(next: nat) | Numbered(number: nat)

  datatype World = World(files: set<nat>, launches: map<nat, Launch>)

  datatype Event = Begin(who: nat) | Try(who: nat)

  predicate Enabled(w: World, e: Event) {
    match e
    case Begin(who) => who !in w.launches
    case Try(who) => who in w.launches && w.launches[who].Trying?
  }

  function Step(w: World, e: Event): World
    requires Enabled(w, e)
  {
    match e
    case Begin(who) => w.(launches := w.launches[who := Trying(1)])
    case Try(who) =>
      var n := w.launches[who].next;
      if n >= LIMIT then w.(launches := w.launches[who := Numbered(0)])
      else if n in w.files then w.(launches := w.launches[who := Trying(n + 1)])
      else World(w.files + {n}, w.launches[who := Numbered(n)])
  }

  predicate IsRun(w: World, es: seq<Event>)
    decreases |es|
  {
    es == [] || (Enabled(w, es[0]) && IsRun(Step(w, es[0]), es[1..]))
  }

  function After(w: World, es: seq<Event>): World
    requires IsRun(w, es)
    decreases |es|
  {
    if es == [] then w else After(Step(w, es[0]), es[1..])
  }

  /** The numbers 1 to k. */
  function UpTo(k: nat): (s: set<nat>)
    ensures |s| == k && forall n :: n in s <==> 1 <= n <= k
  {
    if k == 0 then {} else UpTo(k - 1) + {k}
  }

  /** The launches that took a number. */
  function Winners(launches: map<nat, Launch>): set<nat> {
    set who | who in launches && launches[who].Numbered? && launches[who].number > 0
  }

  /** No two launches share a number but 0. */
  ghost predicate OneLaunchEach(launches: map<nat, Launch>) {
    var winners := Winners(launches);
    forall a, b :: a in winners && b in winners && launches[a].number == launches[b].number ==> a == b
  }

  /** `before` files were there when the first launch began. */
  ghost predicate Inv(w: World, before: nat, k: nat) {
    && before <= k < LIMIT && w.files == UpTo(k)
    && k == before + |Winners(w.launches)|
    && (forall who :: who in w.launches ==> LaunchWell(w.launches[who], before, k))
    && OneLaunchEach(w.launches)
  }

  ghost predicate LaunchWell(l: Launch, before: nat, k: nat) {
    match l
    case Trying(n) => 1 <= n <= k + 1
    case Numbered(n) => if n == 0 then k == LIMIT - 1 else before < n <= k
  }

  /** A launch that took the next number. */
  lemma TakingKeeps(w: World, who: nat, before: nat, k: nat)
    requires Inv(w, before, k) && k + 1 < LIMIT
    requires who in w.launches && w.launches[who] == Trying(k + 1)
    ensures Inv(World(w.files + {k + 1}, w.launches[who := Numbered(k + 1)]), before, k + 1)
  {
    var launches := w.launches[who := Numbered(k + 1)];
    assert Winners(launches) == Winners(w.launches) + {who};
    assert w.files + {k + 1} == UpTo(k + 1);
    forall q | q in launches ensures LaunchWell(launches[q], before, k + 1) {
      assert q != who ==> LaunchWell(w.launches[q], before, k);
    }
  }

  /** A launch that took none. */
  lemma ChangingKeeps(w: World, who: nat, l: Launch, before: nat, k: nat)
    requires Inv(w, before, k) && LaunchWell(l, before, k) && (l.Numbered? ==> l.number == 0)
    requires who in w.launches ==> w.launches[who].Trying?
    ensures Inv(w.(launches := w.launches[who := l]), before, k)
  {
    assert Winners(w.launches[who := l]) == Winners(w.launches);
  }

  /** The number a launch tries is free exactly when it is the next one. */
  lemma NextToTry(w: World, who: nat, before: nat, k: nat)
    requires Inv(w, before, k) && Enabled(w, Try(who))
    ensures var n := w.launches[who].next; 1 <= n <= k + 1 && (n in w.files <==> n <= k)
  {
    assert LaunchWell(w.launches[who], before, k);
  }

  lemma PassingKeeps(w: World, who: nat, before: nat, k: nat)
    requires Inv(w, before, k) && Enabled(w, Try(who))
    requires w.launches[who].next >= LIMIT || w.launches[who].next in w.files
    ensures Inv(Step(w, Try(who)), before, k)
  {
    NextToTry(w, who, before, k);
    var n := w.launches[who].next;
    var l := if n >= LIMIT then Numbered(0) else Trying(n + 1);
    assert LaunchWell(l, before, k);
    ChangingKeeps(w, who, l, before, k);
    assert Step(w, Try(who)) == w.(launches := w.launches[who := l]);
  }

  lemma TryKeeps(w: World, who: nat, before: nat, k: nat) returns (k': nat)
    requires Inv(w, before, k) && Enabled(w, Try(who))
    ensures Inv(Step(w, Try(who)), before, k')
  {
    var n := w.launches[who].next;
    if n >= LIMIT || n in w.files {
      k' := k;
      PassingKeeps(w, who, before, k);
    } else {
      k' := k + 1;
      NextToTry(w, who, before, k);
      TakingKeeps(w, who, before, k);
    }
  }

  lemma StepKeeps(w: World, e: Event, before: nat, k: nat) returns (k': nat)
    requires Inv(w, before, k) && Enabled(w, e)
    ensures Inv(Step(w, e), before, k')
  {
    match e
    case Begin(who) =>
      k' := k;
      ChangingKeeps(w, who, Trying(1), before, k);
    case Try(who) =>
      k' := TryKeeps(w, who, before, k);
  }

  lemma {:induction false} RunKeeps(w: World, es: seq<Event>, before: nat, k: nat) returns (k': nat)
    requires Inv(w, before, k) && IsRun(w, es)
    ensures Inv(After(w, es), before, k')
    decreases |es|
  {
    if es == [] {
      k' := k;
    } else {
      k' := StepKeeps(w, es[0], before, k);
      k' := RunKeeps(Step(w, es[0]), es[1..], before, k');
    }
  }

  /** However the launches interleave, the files stay exactly 1 to some k, no two launches share a number
  but 0, and 0 is left only once all 999 are taken. */
  lemma NumbersAreDistinct(before: nat, es: seq<Event>)
    requires before < LIMIT && IsRun(World(UpTo(before), map[]), es)
    ensures var w := After(World(UpTo(before), map[]), es);
            && w.files == UpTo(|w.files|) && |w.files| == before + |Winners(w.launches)|
            && OneLaunchEach(w.launches)
            && (forall a :: a in Winners(w.launches) ==> before < w.launches[a].number <= |w.files|)
            && (forall a :: a in w.launches && w.launches[a] == Numbered(0) ==> w.files == UpTo(999))
  {
    var w0 := World(UpTo(before), map[]);
    assert Winners(w0.launches) == {};
    var k := RunKeeps(w0, es, before, before);
  }

  lemma AllTakenMeansManyLaunches(launches: map<nat, Launch>, a: nat)
    requires a in launches && a !in Winners(launches)
    ensures |launches.Keys| >= |Winners(launches)| + 1
  {
    SubsetIsSmaller(Winners(launches) + {a}, launches.Keys);
  }

  /** With fewer than 1000 launches in a directory that was empty, every launch that ends gets a number. */
  lemma FewLaunchesAllGetANumber(es: seq<Event>)
    requires IsRun(World({}, map[]), es)
    requires |After(World({}, map[]), es).launches.Keys| < 1000
    ensures var w := After(World({}, map[]), es);
            forall a :: a in w.launches && w.launches[a].Numbered? ==> w.launches[a].number > 0
  {
    assert UpTo(0) == {};
    NumbersAreDistinct(0, es);
    var w := After(World({}, map[]), es);
    forall a | a in w.launches && w.launches[a].Numbered? ensures w.launches[a].number > 0 {
      if w.launches[a].number == 0 {
        AllTakenMeansManyLaunches(w.launches, a);
      }
    }
  }

  lemma {:induction false} SubsetIsSmaller(a: set<nat>, b: set<nat>)
    requires a <= b
    ensures |a| <= |b|
  {
    if a != {} {
      var x :| x in a;
      SubsetIsSmaller(a - {x}, b - {x});
    }
  }

  // ----- the program -----

  class Directory {
    var files: set<nat>

    constructor ()
      ensures files == {}
    {
      files := {};
    }

    /** An exclusive create. */
    method Create(n: nat) returns (created: bool)
      modifies this
      ensures created == (n !in old(files)) && files == old(files) + {n}
    {
      created := n !in files;
      files := files + {n};
    }

    /** One launch with nobody else about takes the least free number below the limit, or 0. */
    method TakeNumber() returns (launchNo: nat)
      modifies this
      ensures launchNo > 0 ==> launchNo < 1000 && launchNo !in old(files) && files == old(files) + {launchNo}
      ensures launchNo > 0 ==> forall n :: 1 <= n < launchNo ==> n in old(files)
      ensures launchNo == 0 ==> files == old(files) && forall n :: 1 <= n < 1000 ==> n in files
    {
      launchNo := 0;
      for n := 1 to LIMIT
        invariant files == old(files) && forall m :: 1 <= m < n ==> m in files
      {
        var created := Create(n);
        if created {
          return n;
        }
        assert files == old(files);
      }
    }
  }
}
