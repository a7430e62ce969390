/** A ghost ledger of the resources the hook owns: the pinned host strings, the
    helper file descriptor, the helper mapping and the copied data directory.
    Replaying a trace of events checks that nothing is released that is not
    held and computes what is still held afterwards. */
module Ledger {
  import opened Types

  datatype Resource =
    | Utf(which: JniString)              // characters pinned by GetStringUTFChars
    | HelperFd                           // the descriptor openat gave for the helper
    | Mapping(addr: MapAddr, len: nat)   // a live mmap of the helper
    | DataDir(path: string)              // the new[]-allocated copy of the data directory

  datatype Event =
    | Acquire(r: Resource)
    | Release(r: Resource)
    | ModuleDirQueried                   // getModuleDir() was called: helper loading began
    | Handoff(dir: string, addr: nat, len: nat)   // hack_prepare started on a detached thread

  /** One event: an acquisition adds to the held resources, a release removes
      one that is held, and a handoff gives away the mapping it carries (if any). */
  function Apply(live: multiset<Resource>, e: Event): Option<multiset<Resource>>
  {
    match e
    case Acquire(r) => Some(live + multiset{r})
    case Release(r) => if r in live then Some(live - multiset{r}) else None
    case ModuleDirQueried => Some(live)
    case Handoff(_, addr, len) =>
      if addr == 0 then Some(live)
      else if Mapping(addr, len) in live then Some(live - multiset{Mapping(addr, len)})
      else None
  }

  /** The resources held after a trace, or None if the trace releases or hands
      off something it does not hold (a double release). */
  function Replay(live: multiset<Resource>, trace: seq<Event>): Option<multiset<Resource>>
    decreases |trace|
  {
    if trace == [] then Some(live)
    else match Apply(live, trace[0])
      case None => None
      case Some(next) => Replay(next, trace[1..])
  }

  function Continue(o: Option<multiset<Resource>>, trace: seq<Event>): Option<multiset<Resource>>
  {
    match o
    case None => None
    case Some(live) => Replay(live, trace)
  }

  /** Replaying two traces one after the other is replaying their concatenation. */
  lemma {:induction false} ReplayAppend(live: multiset<Resource>, a: seq<Event>, b: seq<Event>)
    ensures Replay(live, a + b) == Continue(Replay(live, a), b)
    decreases |a|
  {
    if a == [] {
      assert a + b == b;
    } else {
      assert (a + b)[0] == a[0];
      assert (a + b)[1..] == a[1..] + b;
      match Apply(live, a[0])
      case None =>
      case Some(next) => ReplayAppend(next, a[1..], b);
    }
  }

  /** Two replays that meet in the middle compose. */
  lemma ReplayThen(live: multiset<Resource>, a: seq<Event>, mid: multiset<Resource>, b: seq<Event>,
                   out: multiset<Resource>)
    requires Replay(live, a) == Some(mid) && Replay(mid, b) == Some(out)
    ensures Replay(live, a + b) == Some(out)
  {
    ReplayAppend(live, a, b);
  }

  /** Four replays that meet end to end compose. */
  lemma ReplayChain(live: multiset<Resource>, a: seq<Event>, m1: multiset<Resource>, b: seq<Event>,
                    m2: multiset<Resource>, c: seq<Event>, m3: multiset<Resource>, d: seq<Event>,
                    out: multiset<Resource>)
    requires Replay(live, a) == Some(m1) && Replay(m1, b) == Some(m2)
    requires Replay(m2, c) == Some(m3) && Replay(m3, d) == Some(out)
    ensures Replay(live, a + b + c + d) == Some(out)
  {
    ReplayThen(live, a, m1, b, m2);
    ReplayThen(live, a + b, m2, c, m3);
    ReplayThen(live, a + b + c, m3, d, out);
  }

  /** A trace extended four times is the trace extended once by the four. */
  lemma Regroup(t: seq<Event>, a: seq<Event>, b: seq<Event>, c: seq<Event>, d: seq<Event>)
    ensures t + a + b + c + d == t + (a + b + c + d)
  {
  }

  /** A trace extended three times is the trace extended once by the three. */
  lemma Regroup3(t: seq<Event>, a: seq<Event>, b: seq<Event>, c: seq<Event>)
    ensures t + a + b + c == t + (a + b + c)
  {
  }

  /** The two halves of a concatenation are recovered by slicing at the seam. */
  lemma SplitAt(a: seq<Event>, b: seq<Event>)
    ensures (a + b)[..|a|] == a && (a + b)[|a|..] == b
  {
  }

  /** Replaying one event is applying it. */
  lemma ReplaySingle(live: multiset<Resource>, e: Event)
    ensures Replay(live, [e]) == Apply(live, e)
  {
    assert [e][1..] == [];
  }

  lemma ReplayAcquire(live: multiset<Resource>, r: Resource)
    ensures Replay(live, [Acquire(r)]) == Some(live + multiset{r})
  {
    assert [Acquire(r)][1..] == [];
  }

  lemma ReplayRelease(live: multiset<Resource>, r: Resource)
    requires r in live
    ensures Replay(live, [Release(r)]) == Some(live - multiset{r})
  {
    assert [Release(r)][1..] == [];
  }

  /** Releasing a resource that may or may not have been acquired, exactly when it was. */
  lemma ReplayReleaseIf(live: multiset<Resource>, held: bool, r: Resource)
    ensures Replay(live + (if held then multiset{r} else multiset{}), if held then [Release(r)] else []) == Some(live)
  {
    if held {
      ReplayRelease(live + multiset{r}, r);
      assert live + multiset{r} - multiset{r} == live;
    } else {
      assert live + multiset{} == live;
    }
  }

  /** Number of occurrences of an event in a trace. */
  function Count(trace: seq<Event>, e: Event): nat
    decreases |trace|
  {
    if trace == [] then 0 else (if trace[0] == e then 1 else 0) + Count(trace[1..], e)
  }

  lemma {:induction false} CountAppend(a: seq<Event>, b: seq<Event>, e: Event)
    ensures Count(a + b, e) == Count(a, e) + Count(b, e)
    decreases |a|
  {
    if a == [] {
      assert a + b == b;
    } else {
      assert (a + b)[0] == a[0];
      assert (a + b)[1..] == a[1..] + b;
      CountAppend(a[1..], b, e);
    }
  }

  lemma CountOne(x: Event, e: Event)
    ensures Count([x], e) == if x == e then 1 else 0
  {
    assert [x][1..] == [];
  }

  lemma {:induction false} CountAbsent(trace: seq<Event>, e: Event)
    requires e !in trace
    ensures Count(trace, e) == 0
  {
    if trace != [] {
      assert trace[0] in trace;
      assert forall k | 0 <= k < |trace[1..]| :: trace[1..][k] == trace[k + 1];
      CountAbsent(trace[1..], e);
    }
  }

  /** Number of handoffs in a trace. */
  function Handoffs(trace: seq<Event>): nat
    decreases |trace|
  {
    if trace == [] then 0 else (if trace[0].Handoff? then 1 else 0) + Handoffs(trace[1..])
  }

  /** Number of events that end the hook's ownership of a mapping: an unmap of
      it, or a handoff that carries it. */
  function Disposals(trace: seq<Event>, m: Resource): nat
    requires m.Mapping?
    decreases |trace|
  {
    if trace == [] then 0
    else
      var e := trace[0];
      (if e == Release(m) || (e.Handoff? && e.addr == m.addr && e.len == m.len) then 1 else 0)
      + Disposals(trace[1..], m)
  }
}
