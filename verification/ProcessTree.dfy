/** The descendants of a process: as a depth-first search and as a fixpoint, both over one listing of
all processes with their parents' pids. */
module ProcessTree {

  datatype Entry = Entry(pid: int, ppid: int, facts: int)

  /** A listing names no pid twice. */
  ghost predicate Unique(all: seq<Entry>) {
    forall i, j :: 0 <= i < j < |all| ==> all[i].pid != all[j].pid
  }

  /** `b` comes from `a` by n steps from a parent to a child of the listing. */
  ghost predicate Chain(all: seq<Entry>, a: int, b: int, n: nat)
    decreases n
  {
    if n == 0 then a == b
    else exists e :: e in all && e.pid == b && Chain(all, a, e.ppid, n - 1)
  }

  ghost predicate Reaches(all: seq<Entry>, a: int, b: int) {
    exists n: nat :: Chain(all, a, b, n)
  }

  ghost predicate Descends(all: seq<Entry>, a: int, b: int) {
    exists n: nat :: n > 0 && Chain(all, a, b, n)
  }

  lemma ChildReaches(all: seq<Entry>, a: int, e: Entry)
    requires e in all && Reaches(all, a, e.ppid)
    ensures Descends(all, a, e.pid) && Reaches(all, a, e.pid)
  {
    var n: nat :| Chain(all, a, e.ppid, n);
    assert Chain(all, a, e.pid, n + 1);
  }

  /** A set that holds the root and the children of its members holds everything the root reaches. */
  lemma {:induction false} ClosedHoldsAll(all: seq<Entry>, root: int, s: set<int>, b: int, n: nat)
    requires root in s && (forall e :: e in all && e.ppid in s ==> e.pid in s)
    requires Chain(all, root, b, n)
    ensures b in s
    decreases n
  {
    if n > 0 {
      var e :| e in all && e.pid == b && Chain(all, root, e.ppid, n - 1);
      ClosedHoldsAll(all, root, s, e.ppid, n - 1);
    }
  }

  function Children(all: seq<Entry>, pid: int): seq<Entry> {
    if all == [] then [] else (if all[0].ppid == pid then [all[0]] else []) + Children(all[1..], pid)
  }

  lemma {:induction false} ChildrenAre(all: seq<Entry>, pid: int)
    ensures forall e :: e in Children(all, pid) <==> e in all && e.ppid == pid
    decreases |all|
  {
    if all != [] {
      ChildrenAre(all[1..], pid);
    }
  }

  lemma {:induction false} ChildrenUnique(all: seq<Entry>, pid: int)
    requires Unique(all)
    ensures Unique(Children(all, pid))
    decreases |all|
  {
    if all != [] {
      ChildrenUnique(all[1..], pid);
      ChildrenAre(all[1..], pid);
    }
  }

  lemma {:induction false} ChildrenOfOneMore(all: seq<Entry>, e: Entry, pid: int)
    ensures Children(all + [e], pid) == Children(all, pid) + (if e.ppid == pid then [e] else [])
    decreases |all|
  {
    var x := if e.ppid == pid then [e] else [];
    if all == [] {
      assert [] + [e] == [e] && [e][1..] == [];
      assert Children([e], pid) == x;
    } else {
      var rest := all[1..];
      assert (all + [e])[0] == all[0] && (all + [e])[1..] == rest + [e];
      ChildrenOfOneMore(rest, e, pid);
      var h := if all[0].ppid == pid then [all[0]] else [];
      assert Children(all + [e], pid) == h + Children(rest + [e], pid);
      assert h + (Children(rest, pid) + x) == (h + Children(rest, pid)) + x;
    }
  }

  // ----- the fixpoint -----

  function Keep(all: seq<Entry>, s: set<int>): seq<Entry> {
    if all == [] then [] else (if all[0].pid in s then [all[0]] else []) + Keep(all[1..], s)
  }

  ghost predicate IsClosure(all: seq<Entry>, root: int, s: set<int>) {
    forall p :: p in s <==> Reaches(all, root, p)
  }

  function Pids(all: seq<Entry>): set<int> {
    set e | e in all :: e.pid
  }

  /** One pass over the listing. */
  method Pass(all: seq<Entry>, root: int, before: set<int>) returns (s: set<int>, changed: bool)
    requires root in before && before <= Pids(all) + {root} && forall p :: p in before ==> Reaches(all, root, p)
    ensures before <= s <= Pids(all) + {root} && forall p :: p in s ==> Reaches(all, root, p)
    ensures changed <==> s != before
    ensures !changed ==> forall e :: e in all && e.ppid in s ==> e.pid in s
  {
    s, changed := before, false;
    for i := 0 to |all|
      invariant before <= s <= Pids(all) + {root}
      invariant forall p :: p in s ==> Reaches(all, root, p)
      invariant changed <==> s != before
      invariant !changed ==> forall j :: 0 <= j < i && all[j].ppid in s ==> all[j].pid in s
    {
      var p := all[i];
      if p.ppid in s && p.pid !in s {
        ChildReaches(all, root, p);
        s := s + {p.pid};
        changed := true;
      }
    }
  }

  /** Passes until one adds nothing. It ends on every listing, cyclic ones included, with exactly the pids
  the root reaches. */
  method Closure(all: seq<Entry>, root: int) returns (s: set<int>)
    ensures IsClosure(all, root, s)
  {
    s := {root};
    var changed := true;
    assert Chain(all, root, root, 0);
    while changed
      invariant root in s && s <= Pids(all) + {root}
      invariant forall p :: p in s ==> Reaches(all, root, p)
      invariant !changed ==> forall e :: e in all && e.ppid in s ==> e.pid in s
      decreases |Pids(all) + {root} - s|, changed
    {
      ghost var before := s;
      s, changed := Pass(all, root, s);
      if changed {
        SmallerRest(Pids(all) + {root}, before, s);
      }
    }
    forall p | Reaches(all, root, p) ensures p in s {
      var n: nat :| Chain(all, root, p, n);
      ClosedHoldsAll(all, root, s, p, n);
    }
  }

  /** The kept entries, each where the listing has it: `at` are their places, in order. */
  ghost predicate KeptAt(all: seq<Entry>, s: set<int>, lines: seq<Entry>, at: seq<int>) {
    && |at| == |lines|
    && (forall k :: 0 <= k < |at| ==> 0 <= at[k] < |all| && all[at[k]] == lines[k])
    && (forall j, k :: 0 <= j < k < |at| ==> at[j] < at[k])
    && (forall i :: 0 <= i < |all| ==> (i in at <==> all[i].pid in s))
  }

  /** Exactly the entries of the set are kept, each as often and in the order that the listing has them. */
  lemma {:induction false} KeepIsTheSelection(all: seq<Entry>, s: set<int>) returns (at: seq<int>)
    ensures KeptAt(all, s, Keep(all, s), at)
    decreases |all|
  {
    if all == [] {
      at := [];
    } else {
      var n := |all| - 1;
      at := KeepIsTheSelection(all[..n], s);
      KeepOfOneMore(all[..n], all[n], s);
      assert all == all[..n] + [all[n]];
      if all[n].pid in s {
        OneMoreIsKept(all, s, at);
        at := at + [n];
      } else {
        assert forall i :: i in at ==> i < n;
      }
    }
  }

  lemma OneMoreIsKept(all: seq<Entry>, s: set<int>, at: seq<int>)
    requires all != [] && all[|all| - 1].pid in s
    requires KeptAt(all[..|all| - 1], s, Keep(all[..|all| - 1], s), at)
    ensures KeptAt(all, s, Keep(all[..|all| - 1], s) + [all[|all| - 1]], at + [|all| - 1])
  {
    var n := |all| - 1;
    var more := at + [n];
    assert forall i :: i in more <==> i in at || i == n;
    assert forall i :: i in at ==> i < n;
  }

  function KeepOne(e: Entry, s: set<int>): seq<Entry> {
    if e.pid in s then [e] else []
  }

  lemma KeepFrom(e: Entry, rest: seq<Entry>, s: set<int>)
    ensures Keep([e] + rest, s) == KeepOne(e, s) + Keep(rest, s)
  {
    assert ([e] + rest)[0] == e && ([e] + rest)[1..] == rest;
  }

  lemma KeepAssociates(a: seq<Entry>, b: seq<Entry>, c: seq<Entry>)
    ensures a + (b + c) == a + b + c
  {
  }

  lemma {:induction false} KeepOfOneMore(all: seq<Entry>, e: Entry, s: set<int>)
    ensures Keep(all + [e], s) == Keep(all, s) + KeepOne(e, s)
    decreases |all|
  {
    if all == [] {
      assert all + [e] == [e] + [];
      KeepFrom(e, [], s);
    } else {
      var first, rest := all[0], all[1..];
      assert all == [first] + rest && all + [e] == [first] + (rest + [e]);
      KeepFrom(first, rest, s);
      KeepFrom(first, rest + [e], s);
      KeepOfOneMore(rest, e, s);
      KeepAssociates(KeepOne(first, s), Keep(rest, s), KeepOne(e, s));
    }
  }

  method Filter(all: seq<Entry>, s: set<int>) returns (lines: seq<Entry>)
    ensures lines == Keep(all, s)
  {
    lines := [];
    for i := 0 to |all|
      invariant lines + Keep(all[i..], s) == Keep(all, s)
    {
      assert all[i..][1..] == all[i + 1..];
      if all[i].pid in s {
        lines := lines + [all[i]];
      }
    }
  }

  /** The processes of the listing that the root reaches, in the listing's order. */
  method TreeCmdlines(all: seq<Entry>, root: int) returns (lines: seq<Entry>)
    ensures root == 0 ==> lines == []
    ensures root != 0 ==> exists s, at :: IsClosure(all, root, s) && lines == Keep(all, s) && KeptAt(all, s, lines, at)
  {
    if root == 0 {
      return [];
    }
    var s := Closure(all, root);
    lines := Filter(all, s);
    ghost var at := KeepIsTheSelection(all, s);
  }

  lemma SmallerRest(u: set<int>, a: set<int>, b: set<int>)
    requires a < b <= u
    ensures |u - b| < |u - a|
  {
    assert u - a == (u - b) + (b - a);
    assert b - a != {};
  }

  // ----- the depth-first search -----

  datatype Search = Search(stack: seq<int>, out: seq<Entry>, popped: set<int>)

  /** One turn of the search: the last pid of the stack goes, its children come out and onto the stack. */
  function Turn(all: seq<Entry>, s: Search): Search {
    if s.stack == [] then s
    else
      var pid := s.stack[|s.stack| - 1];
      var children := Children(all, pid);
      Search(s.stack[..|s.stack| - 1] + PidsOf(children), s.out + children, s.popped + {pid})
  }

  function PidsOf(es: seq<Entry>): seq<int> {
    if es == [] then [] else [es[0].pid] + PidsOf(es[1..])
  }

  function Turns(all: seq<Entry>, root: int, n: nat): Search {
    if n == 0 then Search([root], [], {}) else Turn(all, Turns(all, root, n - 1))
  }

  lemma {:induction false} PidsOfAre(es: seq<Entry>)
    ensures |PidsOf(es)| == |es| && forall i :: 0 <= i < |es| ==> PidsOf(es)[i] == es[i].pid
    decreases |es|
  {
    if es != [] {
      PidsOfAre(es[1..]);
    }
  }

  /** A chain can also be followed from its first step. */
  lemma {:induction false} FirstStep(all: seq<Entry>, a: int, b: int, n: nat) returns (e: Entry)
    requires n > 0 && Chain(all, a, b, n)
    ensures e in all && e.ppid == a && Chain(all, e.pid, b, n - 1)
    decreases n
  {
    var last :| last in all && last.pid == b && Chain(all, a, last.ppid, n - 1);
    if n == 1 {
      e := last;
    } else {
      e := FirstStep(all, a, last.ppid, n - 1);
    }
  }

  /** The popped pid comes down to the root through one of its children. */
  lemma AChildGoesOn(all: seq<Entry>, pid: int, root: int) returns (k: nat)
    requires Descends(all, pid, root) && Descends(all, root, root)
    ensures k < |PidsOf(Children(all, pid))| && Descends(all, PidsOf(Children(all, pid))[k], root)
  {
    var children := Children(all, pid);
    var m: nat :| m > 0 && Chain(all, pid, root, m);
    var e := FirstStep(all, pid, root, m);
    ChildrenAre(all, pid);
    k :| 0 <= k < |children| && children[k] == e;
    PidsOfAre(children);
    if m == 1 {
      assert e.pid == root;
    }
  }

  /** A turn keeps a pid on the stack that the root comes down from. */
  lemma TurnKeepsACycle(all: seq<Entry>, s: Search, root: int, i: nat) returns (j: nat)
    requires i < |s.stack| && Descends(all, s.stack[i], root) && Descends(all, root, root)
    ensures j < |Turn(all, s).stack| && Descends(all, Turn(all, s).stack[j], root)
  {
    if i < |s.stack| - 1 {
      j := i;
    } else {
      var k := AChildGoesOn(all, s.stack[i], root);
      j := |s.stack| - 1 + k;
    }
  }

  ghost predicate HoldsACycle(all: seq<Entry>, s: Search, root: int) {
    exists i :: 0 <= i < |s.stack| && Descends(all, s.stack[i], root)
  }

  /** What the start has and every turn keeps, the search has after any number of turns. */
  lemma {:induction false} EveryTurnKeeps(all: seq<Entry>, root: int, has: Search -> bool, n: nat)
    requires has(Search([root], [], {})) && forall s :: has(s) ==> has(Turn(all, s))
    ensures has(Turns(all, root, n))
    decreases n
  {
    if n > 0 {
      EveryTurnKeeps(all, root, has, n - 1);
    }
  }

  lemma TurnHoldsACycle(all: seq<Entry>, s: Search, root: int)
    requires HoldsACycle(all, s, root) && Descends(all, root, root)
    ensures HoldsACycle(all, Turn(all, s), root)
  {
    var i :| 0 <= i < |s.stack| && Descends(all, s.stack[i], root);
    var j := TurnKeepsACycle(all, s, root, i);
  }

  lemma StartHoldsACycle(all: seq<Entry>, root: int)
    requires Descends(all, root, root)
    ensures HoldsACycle(all, Search([root], [], {}), root)
  {
    assert [root][0] == root;
  }

  /** A root that is its own descendant keeps the search going for ever: after any number of turns the
  stack still holds a pid that the root comes down from. */
  lemma ARootInACycleNeverEnds(all: seq<Entry>, root: int, n: nat)
    requires Descends(all, root, root)
    ensures HoldsACycle(all, Turns(all, root, n), root)
  {
    var has := s => HoldsACycle(all, s, root);
    StartHoldsACycle(all, root);
    forall s | has(s) ensures has(Turn(all, s)) {
      TurnHoldsACycle(all, s, root);
    }
    EveryTurnKeeps(all, root, has, n);
  }

  /** Every proper descendant of the root, each once. */
  ghost predicate IsTree(all: seq<Entry>, root: int, out: seq<Entry>) {
    Unique(out) && forall e :: e in out <==> e in all && Descends(all, root, e.pid)
  }

  // ----- where the search stands, for any set of pids closed under the children of the root -----

  ghost predicate Below(all: seq<Entry>, root: int, d: set<int>) {
    root !in d && forall e :: e in all && (e.ppid == root || e.ppid in d) ==> e.pid in d
  }

  /** The pids met so far: the root's and those that are out. */
  ghost predicate Met(root: int, out: seq<Entry>, p: int) {
    p == root || exists e :: e in out && e.pid == p
  }

  ghost predicate OutStands(all: seq<Entry>, d: set<int>, popped: set<int>, out: seq<Entry>) {
    && Unique(out)
    && (forall e :: e in out ==> e in all && e.pid in d && e.ppid in popped)
    && (forall e :: e in all && e.ppid in popped ==> e in out)
  }

  ghost predicate StackStands(root: int, d: set<int>, popped: set<int>, stack: seq<int>, out: seq<Entry>) {
    && (forall p :: p in popped || p in stack <==> Met(root, out, p))
    && (forall p :: p in stack ==> p !in popped && (p == root || p in d))
    && (forall i, j :: 0 <= i < j < |stack| ==> stack[i] != stack[j])
  }

  /** The children of the pid popped next were not met before. */
  lemma ChildrenAreNew(all: seq<Entry>, root: int, d: set<int>, popped: set<int>, stack: seq<int>, out: seq<Entry>,
      e: Entry)
    requires Unique(all) && Below(all, root, d) && stack != []
    requires OutStands(all, d, popped, out) && StackStands(root, d, popped, stack, out)
    requires e in Children(all, stack[|stack| - 1])
    ensures e in all && e.ppid == stack[|stack| - 1] && e.pid in d && !Met(root, out, e.pid)
  {
    var pid := stack[|stack| - 1];
    ChildrenAre(all, pid);
    assert pid in stack;
  }

  lemma UniqueTogether(a: seq<Entry>, b: seq<Entry>)
    requires Unique(a) && Unique(b) && forall e, f :: e in a && f in b ==> e.pid != f.pid
    ensures Unique(a + b)
  {
    var more := a + b;
    forall i, j | 0 <= i < j < |more| ensures more[i].pid != more[j].pid {
      if i < |a| <= j {
        assert more[i] in a && more[j] in b;
      }
    }
  }

  lemma ChildrenComeOut(all: seq<Entry>, d: set<int>, popped: set<int>, out: seq<Entry>, pid: int)
    requires OutStands(all, d, popped, out) && forall e :: e in Children(all, pid) ==> e.pid in d
    requires Unique(out + Children(all, pid))
    ensures OutStands(all, d, popped + {pid}, out + Children(all, pid))
  {
    ChildrenAre(all, pid);
  }

  lemma PoppingKeepsOut(all: seq<Entry>, root: int, d: set<int>, popped: set<int>, stack: seq<int>, out: seq<Entry>)
    requires Unique(all) && Below(all, root, d) && stack != []
    requires OutStands(all, d, popped, out) && StackStands(root, d, popped, stack, out)
    ensures OutStands(all, d, popped + {stack[|stack| - 1]}, out + Children(all, stack[|stack| - 1]))
  {
    var pid := stack[|stack| - 1];
    var children := Children(all, pid);
    ChildrenAre(all, pid);
    ChildrenUnique(all, pid);
    forall e | e in children ensures e in all && e.pid in d && !Met(root, out, e.pid) {
      ChildrenAreNew(all, root, d, popped, stack, out, e);
    }
    UniqueTogether(out, children);
    ChildrenComeOut(all, d, popped, out, pid);
  }

  lemma MetWithMore(root: int, out: seq<Entry>, es: seq<Entry>, p: int)
    ensures Met(root, out + es, p) <==> Met(root, out, p) || p in PidsOf(es)
  {
    PidsOfAre(es);
    var more := out + es;
    if Met(root, out, p) && p != root {
      var e :| e in out && e.pid == p;
      assert e in more;
    }
    if p in PidsOf(es) {
      var i :| 0 <= i < |es| && PidsOf(es)[i] == p;
      assert es[i] in more;
    }
    if Met(root, more, p) && p != root && !Met(root, out, p) {
      var e :| e in more && e.pid == p;
      var i :| 0 <= i < |es| && es[i] == e;
      assert PidsOf(es)[i] == p;
    }
  }

  lemma PidsOfUnique(es: seq<Entry>)
    requires Unique(es)
    ensures forall i, j :: 0 <= i < j < |PidsOf(es)| ==> PidsOf(es)[i] != PidsOf(es)[j]
  {
    PidsOfAre(es);
  }

  lemma ChildrensPidsAreNew(all: seq<Entry>, root: int, d: set<int>, popped: set<int>, stack: seq<int>,
      out: seq<Entry>, p: int)
    requires Unique(all) && Below(all, root, d) && stack != []
    requires OutStands(all, d, popped, out) && StackStands(root, d, popped, stack, out)
    requires p in PidsOf(Children(all, stack[|stack| - 1]))
    ensures !Met(root, out, p) && p in d
  {
    var children := Children(all, stack[|stack| - 1]);
    PidsOfAre(children);
    var i :| 0 <= i < |children| && PidsOf(children)[i] == p;
    ChildrenAreNew(all, root, d, popped, stack, out, children[i]);
  }

  lemma DistinctTogether(rest: seq<int>, pid: int, pids: seq<int>)
    requires forall i, j :: 0 <= i < j < |rest + [pid]| ==> (rest + [pid])[i] != (rest + [pid])[j]
    requires forall i, j :: 0 <= i < j < |pids| ==> pids[i] != pids[j]
    requires forall p :: p in pids ==> p !in rest
    ensures pid !in rest
    ensures forall i, j :: 0 <= i < j < |rest + pids| ==> (rest + pids)[i] != (rest + pids)[j]
  {
    var stack, next := rest + [pid], rest + pids;
    assert stack[|rest|] == pid;
    forall i, j | 0 <= i < j < |next| ensures next[i] != next[j] {
      if j < |rest| {
        assert stack[i] == rest[i] && stack[j] == rest[j];
      } else if i < |rest| {
        assert next[j] in pids;
      }
    }
    forall i | 0 <= i < |rest| ensures rest[i] != pid {
      assert stack[i] == rest[i];
    }
  }

  /** A pid goes from the stack, new ones come. */
  lemma StackMoves(root: int, d: set<int>, popped: set<int>, rest: seq<int>, pid: int, pids: seq<int>, out: seq<Entry>,
      more: seq<Entry>)
    requires StackStands(root, d, popped, rest + [pid], out)
    requires forall p :: p in pids ==> !Met(root, out, p) && p in d
    requires forall p :: Met(root, more, p) <==> Met(root, out, p) || p in pids
    requires forall i, j :: 0 <= i < j < |pids| ==> pids[i] != pids[j]
    ensures StackStands(root, d, popped + {pid}, rest + pids, more)
  {
    var stack, next := rest + [pid], rest + pids;
    assert forall p :: p in stack <==> p in rest || p == pid;
    assert forall p :: p in next <==> p in rest || p in pids;
    forall p | p in pids ensures p !in rest {
      assert p in rest ==> p in stack;
    }
    DistinctTogether(rest, pid, pids);
  }

  lemma MetWithChildren(root: int, out: seq<Entry>, children: seq<Entry>)
    ensures forall p :: Met(root, out + children, p) <==> Met(root, out, p) || p in PidsOf(children)
  {
    forall p ensures Met(root, out + children, p) <==> Met(root, out, p) || p in PidsOf(children) {
      MetWithMore(root, out, children, p);
    }
  }

  lemma AllChildrensPidsAreNew(all: seq<Entry>, root: int, d: set<int>, popped: set<int>, stack: seq<int>,
      out: seq<Entry>)
    requires Unique(all) && Below(all, root, d) && stack != []
    requires OutStands(all, d, popped, out) && StackStands(root, d, popped, stack, out)
    ensures forall p :: p in PidsOf(Children(all, stack[|stack| - 1])) ==> !Met(root, out, p) && p in d
  {
    forall p | p in PidsOf(Children(all, stack[|stack| - 1])) ensures !Met(root, out, p) && p in d {
      ChildrensPidsAreNew(all, root, d, popped, stack, out, p);
    }
  }

  /** The pids are new to the search, and distinct, and what is met with them is met before or is one. */
  ghost predicate NewPids(root: int, d: set<int>, out: seq<Entry>, more: seq<Entry>, pids: seq<int>) {
    && (forall p :: p in pids ==> !Met(root, out, p) && p in d)
    && (forall p :: Met(root, more, p) <==> Met(root, out, p) || p in pids)
    && (forall i, j :: 0 <= i < j < |pids| ==> pids[i] != pids[j])
  }

  lemma ChildrenBringNewPids(all: seq<Entry>, root: int, d: set<int>, popped: set<int>, stack: seq<int>,
      out: seq<Entry>)
    requires Unique(all) && Below(all, root, d) && stack != []
    requires OutStands(all, d, popped, out) && StackStands(root, d, popped, stack, out)
    ensures var children := Children(all, stack[|stack| - 1]);
      NewPids(root, d, out, out + children, PidsOf(children))
  {
    var children := Children(all, stack[|stack| - 1]);
    ChildrenUnique(all, stack[|stack| - 1]);
    PidsOfUnique(children);
    AllChildrensPidsAreNew(all, root, d, popped, stack, out);
    MetWithChildren(root, out, children);
  }

  lemma PoppedStackStands(root: int, d: set<int>, popped: set<int>, stack: seq<int>, out: seq<Entry>,
      more: seq<Entry>, pids: seq<int>)
    requires stack != [] && StackStands(root, d, popped, stack, out) && NewPids(root, d, out, more, pids)
    ensures StackStands(root, d, popped + {stack[|stack| - 1]}, stack[..|stack| - 1] + pids, more)
  {
    assert stack == stack[..|stack| - 1] + [stack[|stack| - 1]];
    StackMoves(root, d, popped, stack[..|stack| - 1], stack[|stack| - 1], pids, out, more);
  }

  lemma PoppingKeepsStack(all: seq<Entry>, root: int, d: set<int>, popped: set<int>, stack: seq<int>, out: seq<Entry>)
    requires Unique(all) && Below(all, root, d) && stack != []
    requires OutStands(all, d, popped, out) && StackStands(root, d, popped, stack, out)
    ensures var pid, children := stack[|stack| - 1], Children(all, stack[|stack| - 1]);
      StackStands(root, d, popped + {pid}, stack[..|stack| - 1] + PidsOf(children), out + children)
  {
    var children := Children(all, stack[|stack| - 1]);
    ChildrenBringNewPids(all, root, d, popped, stack, out);
    PoppedStackStands(root, d, popped, stack, out, out + children, PidsOf(children));
  }

  function Listed(byParent: map<int, seq<Entry>>, pid: int): seq<Entry> {
    if pid in byParent then byParent[pid] else []
  }

  ghost predicate ListsChildren(byParent: map<int, seq<Entry>>, all: seq<Entry>) {
    forall pid :: Listed(byParent, pid) == Children(all, pid)
  }

  lemma OneMoreIsListed(byParent: map<int, seq<Entry>>, all: seq<Entry>, e: Entry)
    requires ListsChildren(byParent, all)
    ensures ListsChildren(byParent[e.ppid := Listed(byParent, e.ppid) + [e]], all + [e])
  {
    var more := byParent[e.ppid := Listed(byParent, e.ppid) + [e]];
    forall pid ensures Listed(more, pid) == Children(all + [e], pid) {
      ChildrenOfOneMore(all, e, pid);
      assert Listed(byParent, pid) == Children(all, pid);
    }
  }

  /** The children of each pid, in the listing's order. */
  method ByParent(all: seq<Entry>) returns (byParent: map<int, seq<Entry>>)
    ensures ListsChildren(byParent, all)
  {
    byParent := map[];
    for i := 0 to |all|
      invariant ListsChildren(byParent, all[..i])
    {
      assert all[..i + 1] == all[..i] + [all[i]];
      OneMoreIsListed(byParent, all[..i], all[i]);
      var k := all[i].ppid;
      byParent := byParent[k := Listed(byParent, k) + [all[i]]];
    }
    assert all[..|all|] == all;
  }

  /** The children of a popped pid come out, and onto the stack. */
  method Push(children: seq<Entry>, out: seq<Entry>, stack: seq<int>) returns (out': seq<Entry>, stack': seq<int>)
    ensures out' == out + children && stack' == stack + PidsOf(children)
  {
    out', stack' := out, stack;
    for i := 0 to |children|
      invariant out' == out + children[..i] && stack' == stack + PidsOf(children[..i])
    {
      assert children[..i + 1] == children[..i] + [children[i]];
      PidsOfTwo(children[..i], [children[i]]);
      out' := out' + [children[i]];
      stack' := stack' + [children[i].pid];
    }
    assert children[..|children|] == children;
  }

  ghost predicate Standing(all: seq<Entry>, root: int, d: set<int>, s: Search) {
    OutStands(all, d, s.popped, s.out) && StackStands(root, d, s.popped, s.stack, s.out)
  }

  lemma PoppingStands(all: seq<Entry>, root: int, d: set<int>, s: Search)
    requires Unique(all) && Below(all, root, d) && s.stack != [] && Standing(all, root, d, s)
    ensures Standing(all, root, d, Turn(all, s))
  {
    PoppingKeepsOut(all, root, d, s.popped, s.stack, s.out);
    PoppingKeepsStack(all, root, d, s.popped, s.stack, s.out);
  }

  lemma PoppingShrinks(all: seq<Entry>, root: int, d: set<int>, s: Search)
    requires Unique(all) && Below(all, root, d) && s.stack != [] && Standing(all, root, d, s)
    ensures var t := Turn(all, s);
      Left(all, t.out) < Left(all, s.out) || (t.out == s.out && |t.stack| < |s.stack|)
  {
    var children := Children(all, s.stack[|s.stack| - 1]);
    if children != [] {
      assert children[0] in children;
      ChildrenAreNew(all, root, d, s.popped, s.stack, s.out, children[0]);
      MorePids(all, root, s.out, s.out + children, children[0]);
    }
  }

  /** What is not out yet, and then what waits on the stack, gets less with every turn. */
  lemma SearchGoesOn(all: seq<Entry>, root: int, d: set<int>, s: Search)
    requires Unique(all) && Below(all, root, d) && s.stack != [] && Standing(all, root, d, s)
    ensures var t := Turn(all, s);
            && Standing(all, root, d, t)
            && (Left(all, t.out) < Left(all, s.out) || (t.out == s.out && |t.stack| < |s.stack|))
  {
    PoppingStands(all, root, d, s);
    PoppingShrinks(all, root, d, s);
  }

  function Left(all: seq<Entry>, out: seq<Entry>): nat {
    |Pids(all) - Pids(out)|
  }

  // ----- the search as a whole -----

  lemma TurnStands(all: seq<Entry>, root: int, d: set<int>, s: Search)
    requires Unique(all) && Below(all, root, d) && Standing(all, root, d, s)
    ensures Standing(all, root, d, Turn(all, s))
  {
    if s.stack != [] {
      SearchGoesOn(all, root, d, s);
    }
  }

  lemma StartStands(all: seq<Entry>, root: int, d: set<int>)
    ensures Standing(all, root, d, Search([root], [], {}))
  {
  }

  lemma SearchStands(all: seq<Entry>, root: int, d: set<int>, n: nat)
    requires Unique(all) && Below(all, root, d)
    ensures Standing(all, root, d, Turns(all, root, n))
  {
    var has := s => Standing(all, root, d, s);
    StartStands(all, root, d);
    forall s | has(s) ensures has(Turn(all, s)) {
      TurnStands(all, root, d, s);
    }
    EveryTurnKeeps(all, root, has, n);
  }

  /** The descendants of a root that is not one of them are such a set, and the least. */
  lemma DescendantsAreBelow(all: seq<Entry>, root: int) returns (d: set<int>)
    requires !Descends(all, root, root)
    ensures Below(all, root, d) && forall p :: p in d <==> Descends(all, root, p)
  {
    d := set p | p in Pids(all) && Descends(all, root, p);
    assert Chain(all, root, root, 0);
    forall e | e in all && (e.ppid == root || e.ppid in d) ensures e.pid in d {
      ChildReaches(all, root, e);
    }
    forall p | Descends(all, root, p) ensures p in d {
      var n: nat :| n > 0 && Chain(all, root, p, n);
      var e :| e in all && e.pid == p && Chain(all, root, e.ppid, n - 1);
    }
  }

  lemma TurnShrinks(all: seq<Entry>, root: int, n: nat)
    requires Unique(all) && !Descends(all, root, root) && Turns(all, root, n).stack != []
    ensures var s, t := Turns(all, root, n), Turns(all, root, n + 1);
            Left(all, t.out) < Left(all, s.out) || (t.out == s.out && |t.stack| < |s.stack|)
  {
    var d := DescendantsAreBelow(all, root);
    SearchStands(all, root, d, n);
    SearchGoesOn(all, root, d, Turns(all, root, n));
  }

  lemma EndedIsTree(all: seq<Entry>, root: int, n: nat)
    requires Unique(all) && !Descends(all, root, root) && Turns(all, root, n).stack == []
    ensures IsTree(all, root, Turns(all, root, n).out)
  {
    var d := DescendantsAreBelow(all, root);
    var s := Turns(all, root, n);
    SearchStands(all, root, d, n);
    forall e | e in all && Descends(all, root, e.pid) ensures e in s.out {
      DescendantsAreOut(all, root, d, s.popped, s.out, e);
    }
  }

  lemma {:induction false} ItComesToAnEnd(all: seq<Entry>, root: int, n: nat) returns (m: nat)
    requires Unique(all) && !Descends(all, root, root)
    ensures Turns(all, root, m).stack == []
    decreases Left(all, Turns(all, root, n).out), |Turns(all, root, n).stack|
  {
    if Turns(all, root, n).stack == [] {
      m := n;
    } else {
      TurnShrinks(all, root, n);
      m := ItComesToAnEnd(all, root, n + 1);
    }
  }

  /** The search ends exactly when its root is not its own descendant. */
  lemma TheSearchEndsUnlessInACycle(all: seq<Entry>, root: int)
    requires Unique(all)
    ensures (exists n: nat :: Turns(all, root, n).stack == []) <==> !Descends(all, root, root)
  {
    if Descends(all, root, root) {
      forall n: nat ensures Turns(all, root, n).stack != [] {
        ARootInACycleNeverEnds(all, root, n);
      }
    } else {
      var m := ItComesToAnEnd(all, root, 0);
    }
  }

  /** And then it has found every proper descendant, each once. */
  method TreeOf(all: seq<Entry>, root: int) returns (out: seq<Entry>)
    requires Unique(all) && !Descends(all, root, root)
    ensures IsTree(all, root, out)
  {
    var byParent := ByParent(all);
    var stack := [root];
    out := [];
    ghost var turns := 0;
    while stack != []
      invariant stack == Turns(all, root, turns).stack && out == Turns(all, root, turns).out
      decreases Left(all, out), |stack|
    {
      TurnShrinks(all, root, turns);
      var pid := stack[|stack| - 1];
      out, stack := Push(Listed(byParent, pid), out, stack[..|stack| - 1]);
      turns := turns + 1;
    }
    EndedIsTree(all, root, turns);
  }

  lemma {:induction false} PidsOfTwo(a: seq<Entry>, b: seq<Entry>)
    ensures PidsOf(a + b) == PidsOf(a) + PidsOf(b)
    decreases |a|
  {
    if a == [] {
      assert a + b == b;
    } else {
      assert (a + b)[1..] == a[1..] + b;
      PidsOfTwo(a[1..], b);
    }
  }

  lemma MorePids(all: seq<Entry>, root: int, before: seq<Entry>, out: seq<Entry>, e: Entry)
    requires before <= out && e in out && e in all && !Met(root, before, e.pid)
    ensures |Pids(all) - Pids(out)| < |Pids(all) - Pids(before)|
  {
    var a, b := Pids(all) - Pids(out), Pids(all) - Pids(before);
    assert e.pid in b && e.pid !in a;
    assert b == a + (b - a);
    assert b - a != {};
  }

  lemma DescendantsAreOut(all: seq<Entry>, root: int, d: set<int>, popped: set<int>, out: seq<Entry>, e: Entry)
    requires Unique(all) && OutStands(all, d, popped, out) && StackStands(root, d, popped, [], out)
    requires e in all && Descends(all, root, e.pid)
    ensures e in out
  {
    assert Met(root, out, root);
    var n: nat :| n > 0 && Chain(all, root, e.pid, n);
    var last :| last in all && last.pid == e.pid && Chain(all, root, last.ppid, n - 1);
    assert last == e;
    forall c | c in all && c.ppid in popped ensures c.pid in popped {
      assert c in out && Met(root, out, c.pid);
    }
    ClosedHoldsAll(all, root, popped, e.ppid, n - 1);
  }

  /** Where the search ends, the two agree: the search finds what the fixpoint finds, apart from the root. */
  lemma TheTwoAgree(all: seq<Entry>, root: int, out: seq<Entry>, s: set<int>, lines: seq<Entry>)
    requires !Descends(all, root, root)
    requires IsTree(all, root, out) && IsClosure(all, root, s) && lines == Keep(all, s)
    ensures forall e :: e in out <==> e in lines && e.pid != root
  {
    KeepAre(all, s);
    forall e: Entry ensures Descends(all, root, e.pid) <==> e.pid in s && e.pid != root {
      if e.pid in s && e.pid != root {
        var n: nat :| Chain(all, root, e.pid, n);
      }
    }
  }

  lemma {:induction false} KeepAre(all: seq<Entry>, s: set<int>)
    ensures forall e :: e in Keep(all, s) <==> e in all && e.pid in s
    decreases |all|
  {
    if all != [] {
      KeepAre(all[1..], s);
    }
  }
}
