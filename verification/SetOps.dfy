/**
  INTERSECT and EXCEPT over any number of inputs, built as a left-deep chain of
  binary set-operation nodes, and the n-ary bag operations they compute.
 */
module SetOps {
  import opened Options

  datatype Command = Intersect | IntersectAll | Except | ExceptAll

  datatype Child = NoChild | Input(k: nat) | Node(node: SetOpNode)

  class SetOpNode {
    var left: Child
    var right: Child
    var cmd: Command

    constructor ()
      ensures left == NoChild && right == NoChild
    {
      left, right, cmd := NoChild, NoChild, Intersect;
    }
  }

  // ----- one node -----

  function Count(cmd: Command, l: nat, r: nat): nat {
    match cmd
    case Intersect => if l > 0 && r > 0 then 1 else 0
    case IntersectAll => if l < r then l else r
    case Except => if l > 0 && r == 0 then 1 else 0
    case ExceptAll => if l > r then l - r else 0
  }

  ghost function Combine<T(!new)>(cmd: Command, l: multiset<T>, r: multiset<T>): (m: multiset<T>)
    ensures forall x :: m[x] == Count(cmd, l[x], r[x])
  {
    match cmd
    case IntersectAll => l * r
    case ExceptAll => l - r
    case Intersect => Once(l * r)
    case Except => Once(Without(l, r))
  }

  ghost function Once<T(!new)>(m: multiset<T>): (o: multiset<T>)
    ensures forall x :: o[x] == if m[x] > 0 then 1 else 0
    decreases |m|
  {
    if m == multiset{} then m
    else
      var x :| x in m;
      var rest := m[x := 0];
      assert |m| == |rest| + m[x];
      Once(rest)[x := 1]
  }

  ghost function Without<T(!new)>(l: multiset<T>, r: multiset<T>): (m: multiset<T>)
    ensures forall x :: m[x] == if r[x] > 0 then 0 else l[x]
    decreases |r|
  {
    if r == multiset{} then l
    else
      var x :| x in r;
      var rest := r[x := 0];
      assert |r| == |rest| + r[x];
      Without(l, rest)[x := 0]
  }

  // ----- the n-ary operations -----

  function Least(xs: seq<nat>): nat
    requires xs != []
  {
    if |xs| == 1 then xs[0]
    else
      var m := Least(xs[..|xs| - 1]);
      if m < xs[|xs| - 1] then m else xs[|xs| - 1]
  }

  function Total(xs: seq<nat>): nat {
    if xs == [] then 0 else Total(xs[..|xs| - 1]) + xs[|xs| - 1]
  }

  /** Multiplicity of a row in the result, from its multiplicities in the inputs. */
  function Multiplicity(cmd: Command, xs: seq<nat>): nat
    requires xs != []
  {
    match cmd
    case IntersectAll => Least(xs)
    case ExceptAll => if xs[0] > Total(xs[1..]) then xs[0] - Total(xs[1..]) else 0
    case Intersect => if forall k | 0 <= k < |xs| :: xs[k] > 0 then 1 else 0
    case Except => if xs[0] > 0 && forall k | 1 <= k < |xs| :: xs[k] == 0 then 1 else 0
  }

  ghost function CountsOf<T>(inputs: seq<multiset<T>>, x: T): (xs: seq<nat>)
    ensures |xs| == |inputs| && forall k | 0 <= k < |xs| :: xs[k] == inputs[k][x]
  {
    seq(|inputs|, k requires 0 <= k < |inputs| => inputs[k][x])
  }

  // ----- the chain -----

  /** Node j combines the result so far with input j + 1; the last node is the operator's own. */
  ghost predicate Chain(nodes: seq<SetOpNode>, cmd: Command)
    reads nodes
  {
    forall j | 0 <= j < |nodes| :: Linked(nodes, j, cmd)
  }

  ghost predicate Linked(nodes: seq<SetOpNode>, j: nat, cmd: Command)
    requires j < |nodes|
    reads nodes
  {
    && nodes[j].cmd == cmd
    && nodes[j].left == (if j == 0 then Input(0) else Node(nodes[j - 1]))
    && nodes[j].right == Input(j + 1)
  }

  /** The bag a child delivers. */
  ghost function BagOf<T(!new)>(c: Child, nodes: seq<SetOpNode>, n: nat, cmd: Command,
                                inputs: seq<multiset<T>>): multiset<T>
    requires Chain(nodes, cmd) && n <= |nodes| < |inputs|
    requires c == if n == 0 then Input(0) else Node(nodes[n - 1])
    reads nodes
    decreases n
  {
    match c
    case Input(k) => inputs[k]
    case Node(node) =>
      assert Linked(nodes, n - 1, cmd);
      Combine(node.cmd, BagOf(node.left, nodes, n - 1, cmd, inputs), inputs[node.right.k])
  }

  /** Builds the chain into the operator's node `plan`; fewer than two inputs are an error. */
  method BuildChain(plan: SetOpNode, n: nat, cmd: Command) returns (r: Option<SetOpNode>, ghost nodes: seq<SetOpNode>)
    modifies plan
    ensures r.Some? <==> n >= 2
    ensures r.Some? ==> r.value == plan && |nodes| == n - 1 && nodes[n - 2] == plan && Chain(nodes, cmd)
    ensures r.Some? ==> forall j | 0 <= j < n - 2 :: fresh(nodes[j])
  {
    nodes := [];
    if n < 2 {
      return None, nodes;
    }
    var left := Input(0);
    for i := 1 to n
      invariant |nodes| == i - 1 && Chain(nodes, cmd)
      invariant left == if i == 1 then Input(0) else Node(nodes[i - 2])
      invariant forall j | 0 <= j < |nodes| && j < n - 2 :: fresh(nodes[j])
      invariant i == n ==> nodes[n - 2] == plan
      invariant forall j | 0 <= j < |nodes| :: nodes[j] == plan ==> j == n - 2
    {
      label Entry:
      var node := plan;
      if i + 1 != n {
        node := new SetOpNode();
      }
      assert node !in nodes;
      ghost var before := nodes;
      node.left := left;
      node.right := Input(i);
      node.cmd := cmd;
      nodes := nodes + [node];
      forall j | 0 <= j < |nodes|
        ensures Linked(nodes, j, cmd)
      {
        if j < |before| {
          assert old@Entry(Linked(before, j, cmd)) && nodes[j] == before[j] && nodes[j] != node;
        }
      }
      left := Node(node);
    }
    r := Some(plan);
  }

  // ----- what the chain computes -----

  lemma StepCount(cmd: Command, xs: seq<nat>, x: nat)
    requires xs != []
    ensures Count(cmd, Multiplicity(cmd, xs), x) == Multiplicity(cmd, xs + [x])
  {
    var ys := xs + [x];
    assert ys[..|ys| - 1] == xs;
    assert ys[1..] == xs[1..] + [x] && ys[1..][..|ys[1..]| - 1] == xs[1..];
    match cmd
    case Intersect =>
      if forall k | 0 <= k < |xs| :: xs[k] > 0 {
        assert (forall k | 0 <= k < |ys| :: ys[k] > 0) <==> ys[|xs|] > 0;
      } else {
        var k :| 0 <= k < |xs| && xs[k] == 0;
        assert ys[k] == 0;
      }
    case Except =>
      if xs[0] > 0 && forall k | 1 <= k < |xs| :: xs[k] == 0 {
        assert (forall k | 1 <= k < |ys| :: ys[k] == 0) <==> ys[|xs|] == 0;
      } else if xs[0] > 0 {
        var k :| 1 <= k < |xs| && xs[k] != 0;
        assert ys[k] != 0;
      }
    case _ =>
  }

  lemma OneCount(cmd: Command, x: nat)
    ensures Multiplicity(cmd, [x]) <= x
    ensures cmd.IntersectAll? || cmd.ExceptAll? ==> Multiplicity(cmd, [x]) == x
  {
    assert [x][1..] == [] && [x][0] == x;
  }

  /** Multiplicities after n nodes; the first input passes through unchanged. */
  lemma {:induction false} ChainCounts<T(!new)>(nodes: seq<SetOpNode>, n: nat, cmd: Command, inputs: seq<multiset<T>>,
                                                x: T)
    requires Chain(nodes, cmd) && 1 <= n <= |nodes| < |inputs|
    ensures BagOf(Node(nodes[n - 1]), nodes, n, cmd, inputs)[x] == Multiplicity(cmd, CountsOf(inputs[..n + 1], x))
  {
    assert Linked(nodes, n - 1, cmd);
    var xs := CountsOf(inputs[..n], x);
    var y := inputs[n][x];
    assert CountsOf(inputs[..n + 1], x) == xs + [y];
    StepCount(cmd, xs, y);
    var before := BagOf(nodes[n - 1].left, nodes, n - 1, cmd, inputs);
    assert BagOf(Node(nodes[n - 1]), nodes, n, cmd, inputs) == Combine(cmd, before, inputs[n]);
    assert BagOf(Node(nodes[n - 1]), nodes, n, cmd, inputs)[x] == Count(cmd, before[x], y);
    if n == 1 {
      assert xs == [inputs[0][x]];
      OneCount(cmd, inputs[0][x]);
      assert before == inputs[0];
      FirstStep(cmd, inputs[0][x], y);
    } else {
      ChainCounts(nodes, n - 1, cmd, inputs, x);
    }
  }

  lemma FirstStep(cmd: Command, x: nat, y: nat)
    ensures Count(cmd, x, y) == Count(cmd, Multiplicity(cmd, [x]), y)
  {
    OneCount(cmd, x);
    assert cmd.Intersect? || cmd.Except? ==> (Multiplicity(cmd, [x]) > 0 <==> x > 0);
  }

  /** The chain computes the n-ary operation on every row. */
  lemma ChainMeans<T(!new)>(nodes: seq<SetOpNode>, plan: SetOpNode, cmd: Command, inputs: seq<multiset<T>>, x: T)
    requires Chain(nodes, cmd) && nodes != [] && |inputs| == |nodes| + 1 && nodes[|nodes| - 1] == plan
    ensures BagOf(Node(plan), nodes, |nodes|, cmd, inputs)[x] == Multiplicity(cmd, CountsOf(inputs, x))
  {
    assert inputs[..|nodes| + 1] == inputs;
    ChainCounts(nodes, |nodes|, cmd, inputs, x);
  }

  lemma CombineBounded<T(!new)>(cmd: Command, l: multiset<T>, r: multiset<T>)
    ensures Combine(cmd, l, r) <= l
  {
    assert forall x :: Combine(cmd, l, r)[x] <= l[x];
  }

  /** Every intermediate result is contained in the first input, which bounds its row estimate. */
  lemma {:induction false} IntermediateBounded<T(!new)>(nodes: seq<SetOpNode>, n: nat, cmd: Command,
                                                        inputs: seq<multiset<T>>)
    requires Chain(nodes, cmd) && 1 <= n <= |nodes| < |inputs|
    ensures BagOf(Node(nodes[n - 1]), nodes, n, cmd, inputs) <= inputs[0]
  {
    assert Linked(nodes, n - 1, cmd);
    var before := BagOf(nodes[n - 1].left, nodes, n - 1, cmd, inputs);
    CombineBounded(cmd, before, inputs[n]);
    if n > 1 {
      IntermediateBounded(nodes, n - 1, cmd, inputs);
    }
  }
}
