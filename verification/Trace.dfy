/** The bounded walk over an execution trace, and the search for the exact private payment in it. */
module ExecutionTrace {
  import opened Basics

  const MAX_DEPTH := 64
  const MAX_NODES := 4096

  /** What a trace node may look like: not an object at all, or a call frame with optional, possibly malformed parts. */
  datatype Children = Absent | Malformed | Frames(frames: seq<Node>)
  datatype Node =
    | Opaque
    | Frame(kind: Option<string>, error: bool, to: Option<string>, input: Option<string>, calls: Children)

  function Below(node: Node): seq<Node> {
    if node.Frame? && node.calls.Frames? then node.calls.frames else []
  }

  /** The node reached by following child positions. */
  function At(node: Node, path: seq<nat>): Option<Node>
    decreases |path|
  {
    if path == [] then Some(node)
    else if path[0] < |Below(node)| then At(Below(node)[path[0]], path[1..])
    else None
  }

  predicate Fine(node: Node) {
    node.Frame? && node.kind.Some? && !node.error && !node.calls.Malformed?
  }

  /** Every node of the tree is a successful call frame, none deeper than the limit. */
  ghost predicate Sound(node: Node, depth: nat) {
    forall path :: At(node, path).Some? ==> Fine(At(node, path).value) && depth + |path| <= MAX_DEPTH
  }

  function Size(node: Node): nat
    decreases node, |Below(node)| + 1
  {
    1 + SizeOfFirst(node, |Below(node)|)
  }

  function SizeOfFirst(node: Node, n: nat): nat
    requires n <= |Below(node)|
    decreases node, n
  {
    if n == 0 then 0 else SizeOfFirst(node, n - 1) + Size(Below(node)[n - 1])
  }

  lemma {:induction false} SizeGrows(node: Node, m: nat, n: nat)
    requires m <= n <= |Below(node)|
    ensures SizeOfFirst(node, m) <= SizeOfFirst(node, n)
  {
    if m < n { SizeGrows(node, m, n - 1); }
  }

  // ---------------------------------------------------------------- the size counts the nodes

  function Paths(node: Node): set<seq<nat>>
    decreases node, |Below(node)| + 1
  {
    {[]} + PathsOfFirst(node, |Below(node)|)
  }

  /** The paths that start with one of the first `n` children. */
  function PathsOfFirst(node: Node, n: nat): set<seq<nat>>
    requires n <= |Below(node)|
    decreases node, n
  {
    if n == 0 then {} else PathsOfFirst(node, n - 1) + Under(n - 1, Paths(Below(node)[n - 1]))
  }

  function Cons(k: nat, path: seq<nat>): seq<nat> { [k] + path }

  function Under(k: nat, paths: set<seq<nat>>): set<seq<nat>> {
    set p | p in paths :: Cons(k, p)
  }

  lemma InUnder(k: nat, paths: set<seq<nat>>, path: seq<nat>)
    ensures path in Under(k, paths) <==> path != [] && path[0] == k && path[1..] in paths
  {
    if path != [] && path[0] == k && path[1..] in paths {
      assert path == Cons(k, path[1..]);
    }
    if path in Under(k, paths) {
      var p :| p in paths && path == Cons(k, p);
      assert path[1..] == p;
    }
  }

  lemma {:induction false} UnderSize(k: nat, paths: set<seq<nat>>)
    ensures |Under(k, paths)| == |paths|
  {
    if paths != {} {
      var q :| q in paths;
      UnderSize(k, paths - {q});
      InUnder(k, paths - {q}, Cons(k, q));
      assert Cons(k, q)[1..] == q;
      assert Under(k, paths) == Under(k, paths - {q}) + {Cons(k, q)};
    }
  }

  /** The size is the number of nodes, told apart by their paths. */
  lemma {:induction false} SizeCountsNodes(node: Node)
    ensures |Paths(node)| == Size(node)
    ensures forall path :: path in Paths(node) <==> At(node, path).Some?
    decreases node, |Below(node)| + 1
  {
    FirstCount(node, |Below(node)|);
    assert [] !in PathsOfFirst(node, |Below(node)|);
    assert |{[]} + PathsOfFirst(node, |Below(node)|)| == 1 + |PathsOfFirst(node, |Below(node)|)|;
  }

  ghost predicate CountsFirst(node: Node, n: nat)
    requires n <= |Below(node)|
  {
    && |PathsOfFirst(node, n)| == SizeOfFirst(node, n)
    && forall path :: path in PathsOfFirst(node, n) <==> path != [] && path[0] < n && At(node, path).Some?
  }

  lemma {:induction false} FirstCount(node: Node, n: nat)
    requires n <= |Below(node)|
    ensures CountsFirst(node, n)
    decreases node, n
  {
    hide CountsFirst;
    if n == 0 {
      NoneCounted(node);
    } else {
      FirstCount(node, n - 1);
      SizeCountsNodes(Below(node)[n - 1]);
      NextCounted(node, n, Below(node)[n - 1]);
    }
  }

  lemma NoneCounted(node: Node)
    ensures CountsFirst(node, 0)
  {}

  lemma Descends(node: Node, path: seq<nat>)
    requires path != [] && path[0] < |Below(node)|
    ensures At(node, path) == At(Below(node)[path[0]], path[1..])
  {}

  lemma NextCounted(node: Node, n: nat, child: Node)
    requires 0 < n <= |Below(node)| && child == Below(node)[n - 1] && CountsFirst(node, n - 1)
    requires |Paths(child)| == Size(child) && forall path :: path in Paths(child) <==> At(child, path).Some?
    ensures CountsFirst(node, n)
  {
    hide At, Size, Paths, Under, PathsOfFirst, SizeOfFirst;
    forall path
      ensures path in PathsOfFirst(node, n) <==> path != [] && path[0] < n && At(node, path).Some?
    {
      NextPath(node, n, child, path);
      SplitOff(node, n, path);
    }
    NextSize(node, n, child);
  }

  lemma SplitOff(node: Node, n: nat, path: seq<nat>)
    requires 0 < n <= |Below(node)|
    ensures path in PathsOfFirst(node, n) <==>
              path in PathsOfFirst(node, n - 1) || path in Under(n - 1, Paths(Below(node)[n - 1]))
  {
    hide At, Size, Paths, Under;
  }

  lemma NextSize(node: Node, n: nat, child: Node)
    requires 0 < n <= |Below(node)| && child == Below(node)[n - 1] && CountsFirst(node, n - 1)
    requires |Paths(child)| == Size(child)
    ensures |PathsOfFirst(node, n)| == SizeOfFirst(node, n)
  {
    hide At, Size, Paths, Under;
    var before, next := PathsOfFirst(node, n - 1), Under(n - 1, Paths(child));
    UnderSize(n - 1, Paths(child));
    forall path | path in next
      ensures path !in before
    {
      InUnder(n - 1, Paths(child), path);
    }
    Apart(before, next);
  }

  lemma NextPath(node: Node, n: nat, child: Node, path: seq<nat>)
    requires 0 < n <= |Below(node)| && child == Below(node)[n - 1]
    requires forall rest :: rest in Paths(child) <==> At(child, rest).Some?
    ensures path in Under(n - 1, Paths(child)) <==> path != [] && path[0] == n - 1 && At(node, path).Some?
  {
    hide At, Paths, Under;
    InUnder(n - 1, Paths(child), path);
    if path != [] && path[0] == n - 1 { Descends(node, path); }
  }

  lemma Apart(a: set<seq<nat>>, b: set<seq<nat>>)
    requires a !! b
    ensures |a + b| == |a| + |b|
  {}

  lemma SoundTop(node: Node, depth: nat)
    requires Sound(node, depth)
    ensures Fine(node) && depth <= MAX_DEPTH
    ensures forall i :: 0 <= i < |Below(node)| ==> Sound(Below(node)[i], depth + 1)
  {
    assert At(node, []) == Some(node);
    forall i, path | 0 <= i < |Below(node)| && At(Below(node)[i], path).Some?
      ensures Fine(At(Below(node)[i], path).value) && depth + 1 + |path| <= MAX_DEPTH
    {
      assert ([i] + path)[1..] == path;
      assert At(node, [i] + path) == At(Below(node)[i], path);
    }
  }

  lemma SoundBuild(node: Node, depth: nat)
    requires Fine(node) && depth <= MAX_DEPTH
    requires forall i :: 0 <= i < |Below(node)| ==> Sound(Below(node)[i], depth + 1)
    ensures Sound(node, depth)
  {
    forall path | At(node, path).Some?
      ensures Fine(At(node, path).value) && depth + |path| <= MAX_DEPTH
    {
      if path != [] {
        assert Sound(Below(node)[path[0]], depth + 1);
        assert At(node, path) == At(Below(node)[path[0]], path[1..]);
      }
    }
  }

  class Counter {
    var nodes: nat

    constructor ()
      ensures nodes == 0
    {
      nodes := 0;
    }
  }

  /** Walks the tree with one shared counter, stopping at the first failure. */
  method AssertTraceSuccess(trace: Node, count: Counter, depth: nat) returns (ok: bool)
    modifies count
    ensures ok <==> Sound(trace, depth) && old(count.nodes) + Size(trace) <= MAX_NODES
    ensures ok ==> count.nodes == old(count.nodes) + Size(trace)
    decreases trace
  {
    hide Sound;
    if Sound(trace, depth) { SoundTop(trace, depth); }
    if !trace.Frame? || trace.kind.None? || trace.error || depth > MAX_DEPTH { return false; }
    count.nodes := count.nodes + 1;
    if count.nodes > MAX_NODES { return false; }
    if trace.calls.Malformed? { return false; }
    if trace.calls.Frames? {
      for i := 0 to |trace.calls.frames|
        invariant forall j :: 0 <= j < i ==> Sound(Below(trace)[j], depth + 1)
        invariant count.nodes == old(count.nodes) + 1 + SizeOfFirst(trace, i) <= MAX_NODES
      {
        var walked := AssertTraceSuccess(trace.calls.frames[i], count, depth + 1);
        if !walked {
          SizeGrows(trace, i + 1, |Below(trace)|);
          return false;
        }
      }
    }
    SoundBuild(trace, depth);
    ok := true;
  }

  predicate Pays(node: Node, proxy: string, calldata: string) {
    node.Frame? && node.kind == Some("CALL") && node.to.Some? && Lower(node.to.value) == Lower(proxy)
    && node.input == Some(calldata)
  }

  /** The recursive search of the source, child by child. */
  predicate ContainsPayment(node: Node, proxy: string, calldata: string)
    decreases node
  {
    Pays(node, proxy, calldata)
    || exists i :: 0 <= i < |Below(node)| && ContainsPayment(Below(node)[i], proxy, calldata)
  }

  ghost predicate PaysSomewhere(node: Node, proxy: string, calldata: string) {
    exists path, to, error, calls ::
      At(node, path) == Some(Frame(Some("CALL"), error, Some(to), Some(calldata), calls)) && Lower(to) == Lower(proxy)
  }

  lemma {:induction false} PaymentFound(node: Node, path: seq<nat>, proxy: string, calldata: string)
    requires At(node, path).Some? && Pays(At(node, path).value, proxy, calldata)
    ensures ContainsPayment(node, proxy, calldata)
    decreases |path|
  {
    if path != [] {
      PaymentFound(Below(node)[path[0]], path[1..], proxy, calldata);
    }
  }

  lemma {:induction false} PaymentLocated(node: Node, proxy: string, calldata: string) returns (path: seq<nat>)
    requires ContainsPayment(node, proxy, calldata)
    ensures At(node, path).Some? && Pays(At(node, path).value, proxy, calldata)
    decreases node
  {
    if Pays(node, proxy, calldata) {
      path := [];
    } else {
      var i :| 0 <= i < |Below(node)| && ContainsPayment(Below(node)[i], proxy, calldata);
      var rest := PaymentLocated(Below(node)[i], proxy, calldata);
      path := [i] + rest;
      assert path[1..] == rest;
    }
  }

  /** Accepts exactly the sound traces of bounded size in which some frame calls the proxy with the exact calldata. */
  method AssertPrivateExecution(trace: Node, proxy: string, calldata: string) returns (ok: bool)
    ensures ok <==> Sound(trace, 0) && Size(trace) <= MAX_NODES && PaysSomewhere(trace, proxy, calldata)
  {
    hide Sound, At;
    var count := new Counter();
    ok := AssertTraceSuccess(trace, count, 0);
    if ok && !ContainsPayment(trace, proxy, calldata) {
      forall path, to, error, calls |
          At(trace, path) == Some(Frame(Some("CALL"), error, Some(to), Some(calldata), calls))
              && Lower(to) == Lower(proxy)
        ensures false
      {
        PaymentFound(trace, path, proxy, calldata);
      }
      return false;
    }
    if ok {
      var path := PaymentLocated(trace, proxy, calldata);
      var frame := At(trace, path).value;
      assert At(trace, path)
          == Some(Frame(Some("CALL"), frame.error, Some(frame.to.value), Some(calldata), frame.calls));
    }
  }
}
