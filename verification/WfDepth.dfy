/** Workflow depth: the memoised search of `src/policy/wfdepth.ts`. */
module WfDepth {

  datatype DepNode = DepNode(id: string, dependsOn: seq<string>)

  /** Dependencies by id; a later node with the same id wins, as in a `Map` built from pairs. */
  type Graph = map<string, seq<string>>

  function ById(nodes: seq<DepNode>): Graph {
    if nodes == [] then map[]
    else ById(nodes[..|nodes| - 1])[nodes[|nodes| - 1].id := nodes[|nodes| - 1].dependsOn]
  }

  // ---- chains ----------------------------------------------------------------

  /** `n` runs after `d`: both are known, and self-edges do not count. */
  predicate Edge(g: Graph, d: string, n: string) {
    d in g && n in g && d != n && d in g[n]
  }

  /** A non-empty sequence of known nodes, each running after the one before. */
  ghost predicate Chain(g: Graph, c: seq<string>) {
    && c != []
    && (forall i :: 0 <= i < |c| ==> c[i] in g)
    && (forall i :: 0 <= i < |c| - 1 ==> Edge(g, c[i], c[i + 1]))
  }

  ghost predicate Simple(c: seq<string>) {
    forall i, j :: 0 <= i < j < |c| ==> c[i] != c[j]
  }

  ghost predicate From(g: Graph, c: seq<string>, n: string) {
    Chain(g, c) && c[0] == n
  }

  ghost predicate To(g: Graph, c: seq<string>, n: string) {
    Chain(g, c) && c[|c| - 1] == n
  }

  /** No chain visits a node twice. */
  ghost predicate Acyclic(g: Graph) {
    forall c :: Chain(g, c) ==> Simple(c)
  }

  ghost predicate LongestTo(g: Graph, n: string, k: nat) {
    (exists c :: To(g, c, n) && |c| == k) && forall c :: To(g, c, n) ==> |c| <= k
  }

  ghost predicate LongestFrom(g: Graph, n: string, k: nat) {
    (exists c :: From(g, c, n) && |c| == k) && forall c :: From(g, c, n) ==> |c| <= k
  }

  /** The depth of a whole graph: the length of its longest chain, 0 when it is empty. */
  ghost predicate DepthIs(g: Graph, k: nat) {
    (if g == map[] then k == 0 else exists c :: Chain(g, c) && |c| == k) && forall c :: Chain(g, c) ==> |c| <= k
  }

  lemma Join(g: Graph, a: seq<string>, b: seq<string>)
    requires Chain(g, a) && Chain(g, b) && Edge(g, a[|a| - 1], b[0])
    ensures Chain(g, a + b)
  {
    var c := a + b;
    forall i | 0 <= i < |c| - 1
      ensures Edge(g, c[i], c[i + 1])
    {
      if i < |a| - 1 {
        assert Edge(g, a[i], a[i + 1]);
      } else if i >= |a| {
        assert Edge(g, b[i - |a|], b[i - |a| + 1]);
      }
    }
  }

  lemma Cut(g: Graph, c: seq<string>, k: nat)
    requires Chain(g, c) && 1 <= k < |c|
    ensures Chain(g, c[..k]) && Chain(g, c[k..]) && Edge(g, c[k - 1], c[k])
  {
    forall i | 0 <= i < |c| - k - 1
      ensures Edge(g, c[k..][i], c[k..][i + 1])
    {
      assert Edge(g, c[k + i], c[k + i + 1]);
    }
  }

  /** A simple chain has no more nodes than the graph. */
  lemma {:induction false} SimpleIsShort(c: seq<string>, keys: set<string>)
    requires Simple(c) && forall i :: 0 <= i < |c| ==> c[i] in keys
    ensures |c| <= |keys|
  {
    if c != [] {
      SimpleIsShort(c[1..], keys - {c[0]});
    }
  }

  // ---- the search ------------------------------------------------------------

  /** A memoised depth is the length of a simple chain of memoised nodes that ends there. */
  ghost predicate Witnessed(g: Graph, memo: map<string, nat>, n: string)
    requires n in memo
  {
    exists c :: To(g, c, n) && Simple(c) && |c| == memo[n] && forall x :: x in c ==> x in memo
  }

  ghost predicate Sound(g: Graph, memo: map<string, nat>) {
    forall n :: n in memo ==> n in g && Witnessed(g, memo, n)
  }

  /** On an acyclic graph every memoised depth is the longest. */
  ghost predicate Exact(g: Graph, memo: map<string, nat>) {
    Acyclic(g) ==> forall n :: n in memo ==> LongestTo(g, n, memo[n])
  }

  /** Every node being visited runs, directly or not, after `n`. */
  ghost predicate Above(g: Graph, visiting: set<string>, n: string) {
    forall w :: w in visiting ==> exists c :: From(g, c, n) && To(g, c, w)
  }

  ghost predicate Grows(memo: map<string, nat>, later: map<string, nat>) {
    forall n :: n in memo ==> n in later && later[n] == memo[n]
  }

  ghost predicate Distinct(s: seq<string>) {
    forall i, j :: 0 <= i < j < |s| ==> s[i] != s[j]
  }

  /** A new entry one deeper than its deepest dependency keeps the memo sound. */
  lemma MemoStaysSound(g: Graph, memo: map<string, nat>, n: string, best: nat, dep: string)
    requires Sound(g, memo) && n in g && n !in memo
    requires best > 0 ==> dep in memo && memo[dep] == best && Edge(g, dep, n)
    ensures Sound(g, memo[n := best + 1])
  {
    var later := memo[n := best + 1];
    forall x | x in later
      ensures x in g && Witnessed(g, later, x)
    {
      if x != n {
        var c :| To(g, c, x) && Simple(c) && |c| == memo[x] && forall y :: y in c ==> y in memo;
        assert To(g, c, x) && |c| == later[x] && forall y :: y in c ==> y in later;
      } else if best == 0 {
        assert To(g, [n], n) && Simple([n]);
      } else {
        var c :| To(g, c, dep) && Simple(c) && |c| == memo[dep] && forall y :: y in c ==> y in memo;
        Join(g, c, [n]);
        var d := c + [n];
        assert forall i :: 0 <= i < |c| ==> c[i] in c;
        assert To(g, d, n) && Simple(d) && |d| == later[n] && forall y :: y in d ==> y in later;
      }
    }
  }

  /** ... and exact, when the deepest dependency really is the deepest. */
  lemma MemoStaysExact(g: Graph, memo: map<string, nat>, n: string, best: nat)
    requires Acyclic(g) && Exact(g, memo) && Sound(g, memo[n := best + 1]) && n !in memo && n in g
    requires forall d :: Edge(g, d, n) ==> d in memo && memo[d] <= best
    ensures Exact(g, memo[n := best + 1])
  {
    var later := memo[n := best + 1];
    assert Witnessed(g, later, n);
    forall c | To(g, c, n)
      ensures |c| <= best + 1
    {
      if |c| > 1 {
        Cut(g, c, |c| - 1);
        assert To(g, c[..|c| - 1], c[|c| - 2]);
        assert LongestTo(g, c[|c| - 2], memo[c[|c| - 2]]);
      }
    }
    forall x | x in later
      ensures LongestTo(g, x, later[x])
    {
      if x == n {
        var c :| To(g, c, n) && |c| == later[n];
      } else {
        assert LongestTo(g, x, memo[x]);
      }
    }
  }

  lemma ClosedIsNotSimple(c: seq<string>)
    requires |c| >= 2 && c[0] == c[|c| - 1]
    ensures !Simple(c)
  {
  }

  /** On an acyclic graph the search never meets a node it is visiting. */
  lemma NotVisiting(g: Graph, visiting: set<string>, n: string, d: string)
    requires Acyclic(g) && Above(g, visiting, n) && Edge(g, d, n)
    ensures d !in visiting
  {
    if d in visiting {
      var c :| From(g, c, n) && To(g, c, d);
      ClosedIsNotSimple([d] + c);
      Join(g, [d], c);
      assert false;
    }
  }

  lemma AboveStep(g: Graph, visiting: set<string>, n: string, d: string)
    requires Above(g, visiting, n) && Edge(g, d, n)
    ensures Above(g, visiting + {n}, d)
  {
    forall w | w in visiting + {n}
      ensures exists c :: From(g, c, d) && To(g, c, w)
    {
      if w == n {
        assert From(g, [d, n], d) && To(g, [d, n], n);
      } else {
        var c :| From(g, c, n) && To(g, c, w);
        Join(g, [d], c);
        assert From(g, [d] + c, d) && To(g, [d] + c, w);
      }
    }
  }

  /** The memo and the nodes on the current search path. */
  class Search {
    const byId: Graph
    var memo: map<string, nat>
    var visiting: set<string>
    /** The nodes expanded so far, in order. */
    ghost var expanded: seq<string>

    constructor (byId: Graph)
      ensures this.byId == byId && memo == map[] && visiting == {} && expanded == []
    {
      this.byId := byId;
      memo, visiting := map[], {};
      expanded := [];
    }

    ghost predicate Valid()
      reads this
    {
      && visiting <= byId.Keys
      && memo.Keys !! visiting
      && Sound(byId, memo) && Exact(byId, memo)
      && Distinct(expanded)
      && (forall x :: x in expanded <==> x in memo || x in visiting)
    }

    /** The first `i` dependencies are memoised, none deeper than `best`. */
    ghost predicate Covers(m: map<string, nat>, deps: seq<string>, i: nat, nid: string, best: nat) {
      forall j :: 0 <= j < i && j < |deps| && Edge(byId, deps[j], nid) ==> deps[j] in m && m[deps[j]] <= best
    }

    lemma CoversNext(m: map<string, nat>, later: map<string, nat>, deps: seq<string>, i: nat, nid: string, best: nat,
                     v: nat)
      requires i < |deps| && Grows(m, later) && v <= best
      requires exists was: nat :: was <= best && Covers(m, deps, i, nid, was)
      requires Edge(byId, deps[i], nid) ==> deps[i] in later && later[deps[i]] == v
      ensures Covers(later, deps, i + 1, nid, best)
    {
    }

    method Depth(nid: string) returns (v: nat)
      requires Valid() && nid in byId
      requires Acyclic(byId) ==> Above(byId, visiting, nid)
      modifies this
      ensures Valid() && visiting == old(visiting) && Grows(old(memo), memo)
      ensures if nid in visiting then v == 0 else nid in memo && v == memo[nid]
      decreases byId.Keys - visiting, 0
    {
      if nid in memo {
        return memo[nid];
      }
      if nid in visiting {
        return 0;
      }
      visiting := visiting + {nid};
      expanded := expanded + [nid];
      var best;
      ghost var deepest;
      best, deepest := Deepest(nid);
      visiting := visiting - {nid};
      MemoStaysSound(byId, memo, nid, best, deepest);
      if Acyclic(byId) {
        forall d | Edge(byId, d, nid)
          ensures d in memo && memo[d] <= best
        {
          var j :| 0 <= j < |byId[nid]| && byId[nid][j] == d;
        }
        MemoStaysExact(byId, memo, nid, best);
      }
      memo := memo[nid := best + 1];
      return best + 1;
    }

    /** The greatest depth among the known dependencies of the node being visited. */
    method Deepest(nid: string) returns (best: nat, ghost deepest: string)
      requires Valid() && nid in byId && nid in visiting
      requires Acyclic(byId) ==> Above(byId, visiting - {nid}, nid)
      modifies this
      ensures Valid() && visiting == old(visiting) && Grows(old(memo), memo)
      ensures best > 0 ==> deepest in memo && memo[deepest] == best && Edge(byId, deepest, nid)
      ensures Acyclic(byId) ==> Covers(memo, byId[nid], |byId[nid]|, nid, best)
      decreases byId.Keys - visiting, 2
    {
      var deps, i := byId[nid], 0;
      best, deepest := 0, nid;
      ghost var path := visiting;
      while i < |deps|
        invariant 0 <= i <= |deps|
        invariant Valid() && visiting == path && Grows(old(memo), memo)
        invariant best > 0 ==> deepest in memo && memo[deepest] == best && Edge(byId, deepest, nid)
        invariant Acyclic(byId) ==> Covers(memo, deps, i, nid, best)
      {
        ghost var before, was := memo, best;
        var v := DepthOfDep(nid, deps[i]);
        if v > best {
          best, deepest := v, deps[i];
        }
        if Acyclic(byId) {
          assert Covers(before, deps, i, nid, was);
          CoversNext(before, memo, deps, i, nid, best, v);
        }
        i := i + 1;
      }
    }

    /** One dependency's depth; self-edges, unknown ids and nodes on the path contribute nothing. */
    method DepthOfDep(nid: string, d: string) returns (v: nat)
      requires Valid() && nid in byId && nid in visiting && d in byId[nid]
      requires Acyclic(byId) ==> Above(byId, visiting - {nid}, nid)
      modifies this
      ensures Valid() && visiting == old(visiting) && Grows(old(memo), memo)
      ensures v > 0 ==> d in memo && memo[d] == v && Edge(byId, d, nid)
      ensures Acyclic(byId) && Edge(byId, d, nid) ==> d in memo && memo[d] == v
      decreases byId.Keys - visiting, 1
    {
      if d == nid || d !in byId {
        return 0;
      }
      if Acyclic(byId) {
        NotVisiting(byId, visiting - {nid}, nid, d);
        AboveStep(byId, visiting - {nid}, nid, d);
        assert visiting - {nid} + {nid} == visiting;
      }
      v := Depth(d);
    }
  }

  /** Depth of the longest dependency chain ending at `id`; 0 for an unknown id. On any graph, cycles
      included, the answer is the length of a simple chain ending at `id`; on an acyclic one, of the longest. */
  method ChainDepthOf(nodes: seq<DepNode>, id: string) returns (n: nat)
    ensures id !in ById(nodes) ==> n == 0
    ensures id in ById(nodes) ==> 1 <= n <= |ById(nodes)| && exists c :: To(ById(nodes), c, id) && Simple(c) && |c| == n
    ensures id in ById(nodes) && Acyclic(ById(nodes)) ==> LongestTo(ById(nodes), id, n)
  {
    var byId := IndexNodes(nodes);
    if id !in byId {
      return 0;
    }
    var search := new Search(byId);
    n := search.Depth(id);
    assert Witnessed(byId, search.memo, id);
    ghost var c :| To(byId, c, id) && Simple(c) && |c| == n;
    SimpleIsShort(c, byId.Keys);
  }

  method IndexNodes(nodes: seq<DepNode>) returns (byId: Graph)
    ensures byId == ById(nodes)
  {
    byId := map[];
    var i := 0;
    while i < |nodes|
      invariant 0 <= i <= |nodes|
      invariant byId == ById(nodes[..i])
    {
      assert nodes[..i + 1][..i] == nodes[..i];
      byId := byId[nodes[i].id := nodes[i].dependsOn];
      i := i + 1;
    }
    assert nodes[..|nodes|] == nodes;
  }

  lemma {:induction false} KnownIds(nodes: seq<DepNode>, id: string)
    ensures id in ById(nodes) <==> exists i :: 0 <= i < |nodes| && nodes[i].id == id
  {
    if nodes != [] {
      KnownIds(nodes[..|nodes| - 1], id);
    }
  }

  /** The deepest chain anywhere; 0 when there are no nodes. */
  method MaxChainDepth(nodes: seq<DepNode>) returns (max: nat)
    ensures max <= |ById(nodes)| && (max == 0 <==> nodes == [])
    ensures max > 0 ==> exists c :: Chain(ById(nodes), c) && Simple(c) && |c| == max
    ensures Acyclic(ById(nodes)) ==> DepthIs(ById(nodes), max)
  {
    var g := ById(nodes);
    max := 0;
    var i := 0;
    while i < |nodes|
      invariant 0 <= i <= |nodes|
      invariant max <= |g| && (max == 0 <==> i == 0)
      invariant max > 0 ==> exists c :: Chain(g, c) && Simple(c) && |c| == max
      invariant Acyclic(g) ==> forall j, c :: 0 <= j < i && To(g, c, nodes[j].id) ==> |c| <= max
    {
      KnownIds(nodes, nodes[i].id);
      var d := ChainDepthOf(nodes, nodes[i].id);
      if d > max {
        max := d;
      }
      i := i + 1;
    }
    if Acyclic(g) {
      forall c | Chain(g, c)
        ensures |c| <= max
      {
        KnownIds(nodes, c[|c| - 1]);
        assert To(g, c, c[|c| - 1]);
      }
      if nodes != [] {
        KnownIds(nodes, nodes[0].id);
      }
    }
  }

  // ---- drawing an edge -------------------------------------------------------

  /** The nodes with `from` added to the dependencies of every node called `to`. */
  function WithEdge(nodes: seq<DepNode>, from: string, to: string): seq<DepNode> {
    seq(|nodes|, i requires 0 <= i < |nodes| =>
      if nodes[i].id == to then DepNode(to, nodes[i].dependsOn + [from]) else nodes[i])
  }

  function AddEdge(g: Graph, from: string, to: string): Graph {
    if to in g then g[to := g[to] + [from]] else g
  }

  lemma {:induction false} WithEdgeAdds(nodes: seq<DepNode>, from: string, to: string)
    ensures ById(WithEdge(nodes, from, to)) == AddEdge(ById(nodes), from, to)
  {
    if nodes != [] {
      var n := |nodes| - 1;
      WithEdgeAdds(nodes[..n], from, to);
      assert WithEdge(nodes, from, to)[..n] == WithEdge(nodes[..n], from, to);
    }
  }

  lemma EdgesAdded(g: Graph, from: string, to: string, d: string, n: string)
    requires from in g && to in g && from != to
    ensures Edge(AddEdge(g, from, to), d, n) <==> Edge(g, d, n) || (d == from && n == to)
  {
  }

  lemma OldChainsStay(g: Graph, from: string, to: string, c: seq<string>)
    requires from in g && to in g && from != to && Chain(g, c)
    ensures Chain(AddEdge(g, from, to), c)
  {
    forall i | 0 <= i < |c| - 1
      ensures Edge(AddEdge(g, from, to), c[i], c[i + 1])
    {
      EdgesAdded(g, from, to, c[i], c[i + 1]);
    }
  }

  /** The chain takes the step from `from` to `to` at position `i`. */
  predicate StepsAt(c: seq<string>, i: nat, from: string, to: string) {
    i + 1 < |c| && c[i] == from && c[i + 1] == to
  }

  /** A stretch of a new chain that does not step from `from` to `to` is an old chain. */
  lemma OldStretch(g: Graph, from: string, to: string, c: seq<string>)
    requires from in g && to in g && from != to && Chain(AddEdge(g, from, to), c)
    requires forall i: nat :: !StepsAt(c, i, from, to)
    ensures Chain(g, c)
  {
    forall i | 0 <= i < |c| - 1
      ensures Edge(g, c[i], c[i + 1])
    {
      assert !StepsAt(c, i, from, to);
      EdgesAdded(g, from, to, c[i], c[i + 1]);
    }
  }

  lemma NewChainsAreShort(g: Graph, from: string, to: string, m: nat, a: nat, b: nat, c: seq<string>)
    requires from in g && to in g && from != to && Acyclic(AddEdge(g, from, to))
    requires DepthIs(g, m) && LongestTo(g, from, a) && LongestFrom(g, to, b)
    requires Chain(AddEdge(g, from, to), c)
    ensures |c| <= if a + b > m then a + b else m
  {
    if k: nat :| StepsAt(c, k, from, to) {
      Cut(AddEdge(g, from, to), c, k + 1);
      var left, right := c[..k + 1], c[k + 1..];
      assert Simple(c);
      forall i: nat
        ensures !StepsAt(left, i, from, to) && !StepsAt(right, i, from, to)
      {
        assert i < |left| ==> left[i] == c[i];
        assert i + 1 < |right| ==> right[i + 1] == c[k + 2 + i];
      }
      OldStretch(g, from, to, left);
      OldStretch(g, from, to, right);
      assert To(g, left, from) && From(g, right, to);
    } else {
      OldStretch(g, from, to, c);
    }
  }

  /** If adding `from → to` keeps the graph acyclic, the new depth is the old one or the longest chain
      through the new edge, whichever is longer. */
  lemma EdgeDepth(g: Graph, from: string, to: string, m: nat, a: nat, b: nat)
    requires from in g && to in g && from != to && Acyclic(AddEdge(g, from, to))
    requires DepthIs(g, m) && LongestTo(g, from, a) && LongestFrom(g, to, b)
    ensures DepthIs(AddEdge(g, from, to), if a + b > m then a + b else m)
  {
    var h := AddEdge(g, from, to);
    var k := if a + b > m then a + b else m;
    forall c | Chain(h, c)
      ensures |c| <= k
    {
      NewChainsAreShort(g, from, to, m, a, b, c);
    }
    if a + b > m {
      var left :| To(g, left, from) && |left| == a;
      var right :| From(g, right, to) && |right| == b;
      OldChainsStay(g, from, to, left);
      OldChainsStay(g, from, to, right);
      EdgesAdded(g, from, to, from, to);
      Join(h, left, right);
      assert Chain(h, left + right) && |left + right| == k;
    } else {
      var c :| Chain(g, c) && |c| == m;
      OldChainsStay(g, from, to, c);
      assert Chain(h, c) && |c| == k;
    }
  }

  lemma DepthIsUnique(g: Graph, k: nat, m: nat)
    requires DepthIs(g, k) && DepthIs(g, m)
    ensures k == m
  {
  }

  /** Depth the longest chain would reach if the edge were added. */
  method DepthWithEdge(nodes: seq<DepNode>, from: string, to: string) returns (n: nat)
    ensures var h := AddEdge(ById(nodes), from, to);
            && (n > 0 ==> exists c :: Chain(h, c) && Simple(c) && |c| == n)
            && (Acyclic(h) ==> DepthIs(h, n))
    ensures var g := ById(nodes);
            from in g && to in g && from != to && Acyclic(AddEdge(g, from, to)) ==>
            forall m: nat, a: nat, b: nat :: DepthIs(g, m) && LongestTo(g, from, a) && LongestFrom(g, to, b) ==>
              n == if a + b > m then a + b else m
  {
    var sim := WithEdge(nodes, from, to);
    n := MaxChainDepth(sim);
    WithEdgeAdds(nodes, from, to);
    ghost var g := ById(nodes);
    if from in g && to in g && from != to && Acyclic(AddEdge(g, from, to)) {
      forall m: nat, a: nat, b: nat | DepthIs(g, m) && LongestTo(g, from, a) && LongestFrom(g, to, b)
        ensures n == if a + b > m then a + b else m
      {
        EdgeDepth(g, from, to, m, a, b);
        DepthIsUnique(AddEdge(g, from, to), n, if a + b > m then a + b else m);
      }
    }
  }
}
