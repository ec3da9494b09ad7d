/**
 A ghost ledger of the kernel allocations one request makes. The handler's
 allocations and releases are recorded in order; replaying them against the set of
 live allocations tells a clean request (everything released exactly once) from a
 leaking one (something still live) and from a misused one (a release of something
 that is not live, such as a double free).
 */
module Ledger {
  import opened Wrappers

  /** The three allocations of one request: the copied request words, the wire block and the data buffer. */
  datatype Obj = UserArgs | Block | Buffer

  /** One allocator call: `kzalloc` of `size` bytes for a role, or `kfree` of it. */
  datatype Event = Alloc(obj: Obj, size: int) | Free(obj: Obj)

  /** The live set after one event, or `None` when the event is a misuse. */
  function Step(live: set<Obj>, e: Event): Option<set<Obj>>
  {
    match e
    case Alloc(o, _) => if o in live then None else Some(live + {o})
    case Free(o) => if o in live then Some(live - {o}) else None
  }

  /** Replays a ledger from the live set `live`; `None` once any event is a misuse. */
  function Run(live: set<Obj>, l: seq<Event>): Option<set<Obj>>
    decreases |l|
  {
    if l == [] then Some(live)
    else match Step(live, l[0])
      case None => None
      case Some(next) => Run(next, l[1..])
  }

  /** Continues a replay that may already have failed. */
  function Then(r: Option<set<Obj>>, l: seq<Event>): Option<set<Obj>>
  {
    match r
    case None => None
    case Some(live) => Run(live, l)
  }

  /** Every allocation released exactly once, nothing released that was not allocated. */
  predicate Clean(l: seq<Event>)
  {
    Run({}, l) == Some({})
  }

  /** No misuse, but something is still allocated at the end. */
  predicate Leaky(l: seq<Event>)
  {
    Run({}, l).Some? && Run({}, l).value != {}
  }

  /** Some release names an allocation that is not live (or an allocation repeats a live one). */
  predicate Misused(l: seq<Event>)
  {
    Run({}, l).None?
  }

  /** How many times `o` is allocated in `l`. */
  function Allocs(l: seq<Event>, o: Obj): nat
  {
    if l == [] then 0
    else (if l[0].Alloc? && l[0].obj == o then 1 else 0) + Allocs(l[1..], o)
  }

  /** How many times `o` is released in `l`. */
  function Frees(l: seq<Event>, o: Obj): nat
  {
    if l == [] then 0
    else (if l[0].Free? && l[0].obj == o then 1 else 0) + Frees(l[1..], o)
  }

  /** 1 when `o` is live in `s`, else 0. */
  function Held(s: set<Obj>, o: Obj): nat
  {
    if o in s then 1 else 0
  }

  /** Replaying a concatenation is replaying its parts one after the other. */
  lemma {:induction false} RunAppend(live: set<Obj>, a: seq<Event>, b: seq<Event>)
    ensures Run(live, a + b) == Then(Run(live, a), b)
    decreases |a|
  {
    if a == [] {
      assert a + b == b;
    } else {
      assert (a + b)[0] == a[0];
      assert (a + b)[1..] == a[1..] + b;
      match Step(live, a[0])
      case None =>
      case Some(next) => RunAppend(next, a[1..], b);
    }
  }

  /** Replaying one event and then the rest. */
  lemma RunCons(live: set<Obj>, e: Event, l: seq<Event>)
    ensures Run(live, [e] + l) == Then(Step(live, e), l)
  {
    assert ([e] + l)[1..] == l;
  }

  /** Counting one event and then the rest. */
  lemma CountsCons(e: Event, l: seq<Event>, o: Obj)
    ensures Allocs([e] + l, o) == (if e.Alloc? && e.obj == o then 1 else 0) + Allocs(l, o)
    ensures Frees([e] + l, o) == (if e.Free? && e.obj == o then 1 else 0) + Frees(l, o)
  {
    assert ([e] + l)[1..] == l;
  }

  /** A ledger of releases only allocates nothing. */
  lemma {:induction false} ReleasesOnly(l: seq<Event>, o: Obj)
    requires forall i :: 0 <= i < |l| ==> l[i].Free?
    ensures Allocs(l, o) == 0
    decreases |l|
  {
    if l != [] {
      assert forall i :: 0 <= i < |l[1..]| ==> l[1..][i] == l[i + 1];
      ReleasesOnly(l[1..], o);
    }
  }

  /** Counting partner of `Run`: a replay that succeeds keeps live + released == initially live + allocated, role by role. */
  lemma {:induction false} RunCounts(live: set<Obj>, l: seq<Event>)
    requires Run(live, l).Some?
    ensures forall o :: Held(Run(live, l).value, o) + Frees(l, o) == Held(live, o) + Allocs(l, o)
    decreases |l|
  {
    if l != [] {
      var next := Step(live, l[0]).value;
      RunCounts(next, l[1..]);
    }
  }

  /** A clean ledger allocates and releases every role equally often (leak-freedom as a count). */
  lemma CleanBalanced(l: seq<Event>)
    requires Clean(l)
    ensures forall o :: Allocs(l, o) == Frees(l, o)
  {
    RunCounts({}, l);
  }

  /** At the end of a replay without misuse, a role is live exactly when it was allocated once more than released. */
  lemma LiveMeansUnreleased(l: seq<Event>, o: Obj)
    requires Run({}, l).Some?
    ensures o in Run({}, l).value <==> Allocs(l, o) == Frees(l, o) + 1
    ensures o !in Run({}, l).value <==> Allocs(l, o) == Frees(l, o)
  {
    RunCounts({}, l);
  }

  /** Releasing a role more often than it was allocated is always a misuse. */
  lemma OverReleaseIsMisuse(l: seq<Event>, o: Obj)
    requires Frees(l, o) > Allocs(l, o)
    ensures Misused(l)
  {
    if Run({}, l).Some? {
      RunCounts({}, l);
    }
  }

  /** Counting a concatenation is adding the counts of its parts. */
  lemma {:induction false} CountsAppend(a: seq<Event>, b: seq<Event>, o: Obj)
    ensures Allocs(a + b, o) == Allocs(a, o) + Allocs(b, o)
    ensures Frees(a + b, o) == Frees(a, o) + Frees(b, o)
    decreases |a|
  {
    if a == [] {
      assert a + b == b;
    } else {
      assert (a + b)[0] == a[0];
      assert (a + b)[1..] == a[1..] + b;
      CountsAppend(a[1..], b, o);
    }
  }
}
