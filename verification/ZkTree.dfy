/**
 * A coordination service's tree of nodes, and the clients that create and delete along paths
 * (src/infra/zk/zkadapter.cc, src/infra/ZooKafkaClient.cpp). One client works at a time and no call is lost.
 */
module ZkTree {
  import opened Common

  datatype Rc = ZOk | ZNoNode | ZNodeExists | ZNotEmpty | ZBadVersion | ZBadArguments

  datatype Node = Node(data: string, version: int)

  type Tree = map<string, Node>

  // ---------- paths ----------

  /** What validatePath accepts. */
  predicate ValidPath(p: string) {
    && |p| > 0 && p[0] == '/'
    && (|p| > 1 ==> p[|p| - 1] != '/' && forall k | 0 <= k < |p| - 1 :: !(p[k] == '/' && p[k + 1] == '/'))
  }

  /** `p.find("/", from)`. */
  function FindSlash(p: string, from: nat): (r: Option<nat>)
    ensures r.Some? ==> from <= r.value < |p| && p[r.value] == '/'
    ensures forall k | from <= k < |p| && (r.Some? ==> k < r.value) :: p[k] != '/'
    decreases |p| - from
  {
    if from >= |p| then None
    else if p[from] == '/' then Some(from)
    else FindSlash(p, from + 1)
  }

  function LastSlash(p: string): (i: nat)
    requires |p| > 0 && p[0] == '/'
    ensures i < |p| && p[i] == '/' && forall k | i < k < |p| :: p[k] != '/'
  {
    if p[|p| - 1] == '/' then |p| - 1 else LastSlash(p[..|p| - 1])
  }

  function Parent(p: string): string
    requires ValidPath(p)
  {
    if LastSlash(p) == 0 then "/" else p[..LastSlash(p)]
  }

  predicate IsChild(path: string, q: string) {
    ValidPath(q) && q != "/" && Parent(q) == path
  }

  /** `q` is `path` or a descendant of it. */
  predicate Under(path: string, q: string) {
    q == path || path == "/" || (|q| > |path| && q[..|path|] == path && q[|path|] == '/')
  }

  /** A proper prefix of `path` that ends before a slash, the root aside. */
  predicate IsAncestor(q: string, path: string) {
    0 < |q| < |path| && path[..|q|] == q && path[|q|] == '/'
  }

  /** Every node has a well-formed path and a parent, up to the root. */
  ghost predicate Closed(t: Tree) {
    && "/" in t
    && forall q | q in t :: ValidPath(q) && (q != "/" ==> Parent(q) in t)
  }

  lemma {:induction false} ValidCut(p: string, i: nat)
    requires ValidPath(p) && 0 < i < |p| && p[i] == '/'
    ensures ValidPath(p[..i]) && p[..i] != "/"
  {
    assert p[i - 1] != '/';
  }

  lemma {:induction false} ParentValid(p: string)
    requires ValidPath(p)
    ensures ValidPath(Parent(p))
    ensures p != "/" ==> |Parent(p)| < |p|
    ensures p != "/" ==> Parent(p) == "/" || IsAncestor(Parent(p), p)
  {
    if LastSlash(p) != 0 {
      ValidCut(p, LastSlash(p));
    }
  }

  /** The parent of a prefix cut at a slash is the root or the prefix cut at the slash before. */
  lemma {:induction false} ParentOfCut(p: string, from: nat, i: nat)
    requires ValidPath(p) && 0 < from <= i <= |p| && p[from - 1] == '/'
    requires i < |p| ==> p[i] == '/'
    requires forall k | from <= k < i :: p[k] != '/'
    requires p != "/"
    ensures ValidPath(p[..i]) ==> Parent(p[..i]) == if from == 1 then "/" else p[..from - 1]
  {
    if ValidPath(p[..i]) {
      var q := p[..i];
      assert i > 0 && q[LastSlash(q)] == '/';
      if i == from {
        assert p[i - 1] == '/';
      } else {
        assert q[from - 1] == '/';
        assert LastSlash(q) == from - 1;
        assert q[..from - 1] == p[..from - 1];
      }
    }
  }

  lemma {:induction false} UnderParent(path: string, q: string)
    requires ValidPath(path) && ValidPath(q) && q != "/"
    ensures Under(path, q) && q != path ==> Under(path, Parent(q))
    ensures Under(path, Parent(q)) ==> Under(path, q)
    ensures q == path ==> !Under(path, Parent(q)) || path == "/"
  {
    var ls := LastSlash(q);
    if path != "/" && Under(path, q) && q != path {
      assert ls >= |path|;
      assert q[..ls][..|path|] == path;
    }
    if path != "/" && Under(path, Parent(q)) && ls > 0 {
      assert |Parent(q)| == ls;
      if Parent(q) != path {
        assert q[..|path|] == q[..ls][..|path|];
      }
    }
  }

  lemma {:induction false} UnderTransitive(a: string, b: string, c: string)
    requires ValidPath(a) && ValidPath(b) && ValidPath(c) && Under(a, b) && Under(b, c)
    ensures Under(a, c)
  {
    if a != "/" && b != a && c != b {
      assert c[..|b|][..|a|] == c[..|a|];
    }
  }

  /** In a closed tree a proper descendant is at or under a child. */
  lemma {:induction false} UnderSomeChild(t: Tree, path: string, q: string) returns (child: string)
    requires Closed(t) && path in t && q in t && Under(path, q) && q != path
    ensures child in t && IsChild(path, child) && Under(child, q)
    decreases |q|
  {
    if q == "/" {
      assert false;
    }
    UnderParent(path, q);
    ParentValid(q);
    if Parent(q) == path {
      child := q;
    } else {
      child := UnderSomeChild(t, path, Parent(q));
      UnderParent(child, q);
    }
  }

  /** Two different children of one node: neither is under the other. */
  lemma {:induction false} SiblingsApart(path: string, a: string, b: string)
    requires ValidPath(path) && IsChild(path, a) && IsChild(path, b) && a != b
    ensures !Under(a, b)
  {
    UnderParent(a, b);
    ParentValid(a);
  }

  lemma {:induction false} ChildUnder(path: string, child: string)
    requires ValidPath(path) && IsChild(path, child)
    ensures Under(path, child) && child != path && !Under(child, path)
  {
    ParentValid(child);
    UnderParent(path, child);
  }

  /** Every cut of a node's path is a node. */
  lemma {:induction false} AncestorsPresent(t: Tree, q: string, i: nat)
    requires Closed(t) && q in t && 0 < i < |q| && q[i] == '/'
    ensures q[..i] in t
    decreases |q|
  {
    var ls := LastSlash(q);
    assert ls >= i;
    ParentValid(q);
    if ls > i {
      assert q[..ls][..i] == q[..i];
      AncestorsPresent(t, Parent(q), i);
    }
  }

  // ---------- the server ----------

  /** The server's answer to a create of a plain node. */
  function CreateRc(t: Tree, path: string): Rc {
    if !ValidPath(path) then ZBadArguments
    else if path in t then ZNodeExists
    else if Parent(path) !in t then ZNoNode
    else ZOk
  }

  /** The server's answer to a delete; version -1 matches every version. */
  function DeleteRc(t: Tree, path: string, version: int): Rc {
    if !ValidPath(path) || path == "/" then ZBadArguments
    else if path !in t then ZNoNode
    else if version != -1 && version != t[path].version then ZBadVersion
    else if Children(t, path) != {} then ZNotEmpty
    else ZOk
  }

  function Children(t: Tree, path: string): set<string> {
    set q | q in t && IsChild(path, q)
  }

  function Subtree(t: Tree, path: string): set<string> {
    set q | q in t && Under(path, q)
  }

  function Join(path: string, name: string): string {
    (if path == "/" then path else path + "/") + name
  }

  lemma {:induction false} NameJoins(path: string, q: string)
    requires IsChild(path, q)
    ensures Join(path, q[LastSlash(q) + 1..]) == q
  {
    var ls := LastSlash(q);
    assert q[..ls] + [q[ls]] + q[ls + 1..] == q;
    if ls == 0 {
      assert q[..ls] + [q[ls]] == "/";
    }
  }

  /** A node without children is its whole subtree. */
  lemma {:induction false} LeafSubtree(t: Tree, path: string)
    requires Closed(t) && path in t
    ensures Children(t, path) == {} ==> Subtree(t, path) == {path}
  {
    forall q | q in Subtree(t, path) && q != path
      ensures Children(t, path) != {}
    {
      var child := UnderSomeChild(t, path, q);
      assert child in Children(t, path);
    }
  }

  /** The paths of the nodes that `names` are the names of, under `path`. */
  function Joined(path: string, names: seq<string>): set<string> {
    set i | 0 <= i < |names| :: Join(path, names[i])
  }

  lemma {:induction false} JoinedAppend(path: string, names: seq<string>, name: string)
    ensures Joined(path, names + [name]) == Joined(path, names) + {Join(path, name)}
    ensures name in names ==> Join(path, name) in Joined(path, names)
  {
    var longer := names + [name];
    forall i | 0 <= i < |names|
      ensures Join(path, names[i]) in Joined(path, longer)
    {
      assert longer[i] == names[i];
    }
    assert longer[|names|] == name;
  }

  class ZkServer {
    var nodes: Tree

    constructor ()
      ensures Closed(nodes) && nodes == map["/" := Node("", 0)]
    {
      nodes := map["/" := Node("", 0)];
    }

    method Create(path: string, value: string) returns (rc: Rc)
      requires Closed(nodes)
      modifies this
      ensures rc == CreateRc(old(nodes), path)
      ensures nodes == if rc == ZOk then old(nodes)[path := Node(value, 0)] else old(nodes)
      ensures Closed(nodes)
    {
      rc := CreateRc(nodes, path);
      if rc == ZOk {
        nodes := nodes[path := Node(value, 0)];
      }
    }

    method Delete(path: string, version: int) returns (rc: Rc)
      requires Closed(nodes)
      modifies this
      ensures rc == DeleteRc(old(nodes), path, version)
      ensures nodes == if rc == ZOk then old(nodes) - {path} else old(nodes)
      ensures Closed(nodes)
    {
      rc := DeleteRc(nodes, path, version);
      if rc == ZOk {
        ghost var before := nodes;
        nodes := nodes - {path};
        forall q | q in nodes && q != "/"
          ensures Parent(q) in nodes
        {
          assert q in before;
          assert Parent(q) == path ==> q in Children(before, path);
        }
      }
    }

    /** The names of the children, each once, in no particular order. */
    method GetChildren(path: string) returns (rc: Rc, names: seq<string>)
      requires Closed(nodes)
      ensures rc == if path in nodes then ZOk else ZNoNode
      ensures forall i, j | 0 <= i < j < |names| :: names[i] != names[j]
      ensures rc == ZOk ==> Joined(path, names) == Children(nodes, path)
    {
      names := [];
      if path !in nodes {
        return ZNoNode, [];
      }
      rc := ZOk;
      var left := Children(nodes, path);
      while left != {}
        invariant Joined(path, names) + left == Children(nodes, path)
        invariant Joined(path, names) !! left
        invariant forall i, j | 0 <= i < j < |names| :: names[i] != names[j]
        decreases left
      {
        var q :| q in left;
        assert q in Children(nodes, path);
        NameJoins(path, q);
        JoinedAppend(path, names, q[LastSlash(q) + 1..]);
        names := names + [q[LastSlash(q) + 1..]];
        left := left - {q};
      }
    }
  }

  // ---------- the blocking adapter ----------

  /** `Done(false)` where the source returns false; the other two where it throws. */
  datatype Outcome = Done(did: bool) | InvalidPath | Failed(rc: Rc)

  /** What a delete does: nothing, or the node and everything under it, all at once. */
  function DeleteOutcome(t: Tree, path: string, recursive: bool, version: int): Outcome {
    if !ValidPath(path) then InvalidPath
    else
      var rc := DeleteRc(t, path, version);
      if rc == ZNoNode then Done(false)
      else if rc == ZOk || (rc == ZNotEmpty && recursive) then Done(true)
      else Failed(rc)
  }

  /** The cuts of `p` at its slashes before position `n`, the root aside: the ancestors that a create walks through. */
  function Cuts(p: string, n: nat): set<string>
    requires n <= |p|
  {
    set i | 0 < i < n && p[i] == '/' :: p[..i]
  }

  /** `t` with the paths in `cuts` that it lacks, each holding `value`. */
  function Filled(t: Tree, cuts: set<string>, value: string): Tree {
    t + map q | q in cuts && q !in t :: Node(value, 0)
  }

  function CreateOutcome(t: Tree, path: string, createAncestors: bool): Outcome {
    if !ValidPath(path) then InvalidPath
    else if path in t then Done(false)
    else if Parent(path) !in t && !createAncestors then Failed(ZNoNode)
    else Done(true)
  }

  /** The tree after a create that did something: missing ancestors come empty, the node with its value. */
  function WithNode(t: Tree, path: string, value: string): Tree {
    Filled(t, Cuts(path, |path|), "")[path := Node(value, 0)]
  }

  // ---------- deleting a subtree child by child ----------

  /** Everything in `t` under one of `roots`. */
  function SubtreesOf(t: Tree, roots: seq<string>): set<string> {
    set q | q in t && exists c :: c in roots && Under(c, q)
  }

  ghost predicate ListsChildren(t: Tree, path: string, list: seq<string>) {
    && (forall c :: c in list <==> c in Children(t, path))
    && forall i, j | 0 <= i < j < |list| :: list[i] != list[j]
  }

  /** Of two nodes over a third, one is over the other. */
  lemma {:induction false} OversNest(a: string, b: string, q: string)
    requires a != "/" && b != "/" && |a| <= |b| && Under(a, q) && Under(b, q)
    ensures Under(a, b)
  {
    assert b == q[..|b|];
    assert q[..|b|][..|a|] == q[..|a|];
  }

  lemma {:induction false} SubtreesDisjoint(path: string, a: string, b: string, q: string)
    requires ValidPath(path) && IsChild(path, a) && IsChild(path, b) && a != b && Under(a, q)
    ensures !Under(b, q)
  {
    SiblingsApart(path, a, b);
    SiblingsApart(path, b, a);
    if Under(b, q) && |a| <= |b| {
      OversNest(a, b, q);
    } else if Under(b, q) {
      OversNest(b, a, q);
    }
  }

  /** The earlier children's removal leaves the next child's subtree whole. */
  lemma {:induction false} ChildRemains(t: Tree, path: string, list: seq<string>, i: nat, now: Tree)
    requires Closed(t) && path in t && ListsChildren(t, path, list) && i < |list|
    requires now == t - SubtreesOf(t, list[..i])
    ensures Subtree(now, list[i]) == Subtree(t, list[i]) < Subtree(t, path)
    ensures DeleteOutcome(now, list[i], true, -1) == Done(true)
  {
    var c := list[i];
    assert c in list && c in Children(t, path);
    ChildUnder(path, c);
    forall q | q in Subtree(t, c)
      ensures q in now && q in Subtree(t, path)
    {
      UnderTransitive(path, c, q);
      forall b | b in list[..i]
        ensures !Under(b, q)
      {
        assert b in list && b in Children(t, path);
        SubtreesDisjoint(path, c, b, q);
      }
    }
    assert path in Subtree(t, path);
    assert c in Subtree(t, c);
  }

  lemma {:induction false} OneMoreGone(t: Tree, list: seq<string>, i: nat, now: Tree)
    requires i < |list| && now == t - SubtreesOf(t, list[..i])
    requires Subtree(now, list[i]) == Subtree(t, list[i])
    ensures now - Subtree(now, list[i]) == t - SubtreesOf(t, list[..i + 1])
  {
    assert list[..i + 1] == list[..i] + [list[i]];
    forall q | q in t
      ensures q in SubtreesOf(t, list[..i + 1]) <==> q in SubtreesOf(t, list[..i]) || q in Subtree(t, list[i])
    {
      if q in Subtree(t, list[i]) {
        assert list[i] in list[..i + 1];
      }
    }
  }

  /** Without its children's subtrees a node is alone in its own. */
  lemma {:induction false} OnlyRootRemains(t: Tree, path: string, list: seq<string>, now: Tree)
    requires Closed(t) && path in t && path != "/" && ListsChildren(t, path, list) && list != []
    requires now == t - SubtreesOf(t, list)
    ensures DeleteOutcome(now, path, false, -1) == Done(true)
    ensures Subtree(now, path) == {path} < Subtree(t, path)
    ensures now - Subtree(now, path) == t - Subtree(t, path)
  {
    forall q | q in Subtree(t, path)
      ensures q in SubtreesOf(t, list) <==> q != path
    {
      if q != path {
        var c := UnderSomeChild(t, path, q);
        assert c in Children(t, path);
      } else {
        forall c | c in list
          ensures !Under(c, path)
        {
          assert c in Children(t, path);
          ChildUnder(path, c);
        }
      }
    }
    forall q | q in SubtreesOf(t, list)
      ensures q in Subtree(t, path)
    {
      var c :| c in list && Under(c, q);
      assert c in Children(t, path);
      ChildUnder(path, c);
      UnderTransitive(path, c, q);
    }
    assert path in now;
    forall q | q in Children(now, path)
      ensures false
    {
      ChildUnder(path, q);
    }
    assert list[0] in Children(t, path);
    ChildUnder(path, list[0]);
    assert list[0] in Subtree(t, path);
  }

  lemma {:induction false} JoinedList(path: string, names: seq<string>, list: seq<string>)
    requires |list| == |names| && forall k | 0 <= k < |names| :: list[k] == Join(path, names[k])
    requires forall i, j | 0 <= i < j < |names| :: names[i] != names[j]
    ensures forall c :: c in list <==> c in Joined(path, names)
    ensures forall i, j | 0 <= i < j < |list| :: list[i] != list[j]
  {
    var before := if path == "/" then path else path + "/";
    forall i, j | 0 <= i < j < |list|
      ensures list[i] != list[j]
    {
      assert list[i][|before|..] == names[i] && list[j][|before|..] == names[j];
    }
    forall c | c in list
      ensures c in Joined(path, names)
    {
      var i :| 0 <= i < |list| && list[i] == c;
    }
  }

  // ---------- creating a path from the top down ----------

  lemma {:induction false} NothingToFill(t: Tree, path: string, value: string)
    requires Closed(t) && ValidPath(path) && path != "/" && Parent(path) in t
    ensures Filled(t, Cuts(path, |path|), value) == t
  {
    forall q | q in Cuts(path, |path|)
      ensures q in t
    {
      var i :| 0 < i < |path| && path[i] == '/' && path[..i] == q;
      var ls := LastSlash(path);
      assert i <= ls;
      if i < ls {
        assert path[..ls][..i] == q;
        AncestorsPresent(t, Parent(path), i);
      }
    }
  }

  /** With no slash in between, the cut at the next slash is one more, and its own cuts are among those before. */
  lemma {:induction false} NextCut(path: string, pos: nat, i: nat)
    requires 0 < pos <= i < |path| && path[i] == '/'
    requires forall k | pos <= k < i :: path[k] != '/'
    ensures Cuts(path, i + 1) == Cuts(path, pos) + {path[..i]}
    ensures Cuts(path[..i], i) <= Cuts(path, pos)
  {
    var q := path[..i];
    forall c | c in Cuts(path, i + 1)
      ensures c in Cuts(path, pos) || c == q
    {
      var k :| 0 < k < i + 1 && path[k] == '/' && path[..k] == c;
      assert k < pos || k == i;
    }
    forall c | c in Cuts(q, i)
      ensures c in Cuts(path, pos)
    {
      var k :| 0 < k < i && q[k] == '/' && q[..k] == c;
      assert path[k] == '/' && path[..k] == c;
    }
    assert q in Cuts(path, i + 1);
  }

  lemma {:induction false} FilledTwice(t: Tree, a: set<string>, b: set<string>, value: string)
    ensures Filled(Filled(t, a, value), b, value) == Filled(t, a + b, value)
  {
  }

  lemma {:induction false} FilledAlready(t: Tree, a: set<string>, b: set<string>, value: string)
    requires b <= a
    ensures Filled(Filled(t, a, value), b, value) == Filled(t, a, value)
  {
    assert a + b == a;
    FilledTwice(t, a, b, value);
  }

  /** Creating the cut at the next slash, whether or not it is there, fills one cut more. */
  lemma {:induction false} OneMoreCut(t: Tree, path: string, pos: nat, i: nat, value: string, now: Tree)
    requires 0 < pos <= i < |path| && path[i] == '/'
    requires forall k | pos <= k < i :: path[k] != '/'
    requires now == Filled(t, Cuts(path, pos), value)
    ensures Filled(now, {path[..i]}, value) == Filled(t, Cuts(path, i + 1), value)
    ensures Filled(now, Cuts(path[..i], i), value) == now
  {
    NextCut(path, pos, i);
    FilledTwice(t, Cuts(path, pos), {path[..i]}, value);
    FilledAlready(t, Cuts(path, pos), Cuts(path[..i], i), value);
  }

  /** The adapter's create of that cut, with its own ancestors, does just this. */
  lemma {:induction false} CutCreated(t: Tree, path: string, pos: nat, i: nat, now: Tree, after: Tree)
    requires 0 < pos <= i < |path| && path[i] == '/' && ValidPath(path)
    requires forall k | pos <= k < i :: path[k] != '/'
    requires now == Filled(t, Cuts(path, pos), "")
    requires after == if CreateOutcome(now, path[..i], true) == Done(true) then WithNode(now, path[..i], "") else now
    ensures after == Filled(t, Cuts(path, i + 1), "")
  {
    ValidCut(path, i);
    OneMoreCut(t, path, pos, i, "", now);
  }

  /** Past the last slash every cut is filled, the node's parent among them. */
  lemma {:induction false} AllCut(t: Tree, path: string, pos: nat, value: string, now: Tree)
    requires Closed(t) && ValidPath(path) && path != "/" && 0 < pos <= |path| && path[pos - 1] == '/'
    requires FindSlash(path, pos).None?
    requires now == Filled(t, Cuts(path, pos), value)
    ensures Cuts(path, pos) == Cuts(path, |path|)
    ensures Parent(path) in now && Filled(now, Cuts(path, |path|), value) == now
    ensures path in now <==> path in t
  {
    ParentOfCut(path, pos, |path|);
    assert path[..|path|] == path;
    if pos > 1 {
      assert path[..pos - 1] in Cuts(path, pos);
    }
    forall c | c in Cuts(path, |path|)
      ensures c in Cuts(path, pos) && |c| < |path|
    {
      var k :| 0 < k < |path| && path[k] == '/' && path[..k] == c;
      assert k < pos;
    }
  }

  lemma {:induction false} LastCreate(t: Tree, path: string, pos: nat, value: string, now: Tree)
    requires Closed(t) && ValidPath(path) && path !in t && 0 < pos <= |path| && path[pos - 1] == '/'
    requires FindSlash(path, pos).None?
    requires now == Filled(t, Cuts(path, pos), "")
    ensures CreateOutcome(now, path, false) == Done(true) && WithNode(now, path, value) == WithNode(t, path, value)
  {
    AllCut(t, path, pos, "", now);
  }

  class ZooKeeperAdapter {
    const zk: ZkServer

    constructor (server: ZkServer)
      ensures zk == server
    {
      zk := server;
    }

    method GetNodeChildren(path: string) returns (r: Outcome, nodeList: seq<string>)
      requires Closed(zk.nodes)
      ensures r == if !ValidPath(path) then InvalidPath else if path in zk.nodes then Done(true) else Failed(ZNoNode)
      ensures r == Done(true) ==> ListsChildren(zk.nodes, path, nodeList)
    {
      nodeList := [];
      if !ValidPath(path) {
        return InvalidPath, [];
      }
      var rc, names := zk.GetChildren(path);
      if rc != ZOk {
        return Failed(rc), [];
      }
      var i := 0;
      while i < |names|
        invariant 0 <= i <= |names| && |nodeList| == i
        invariant forall k | 0 <= k < i :: nodeList[k] == Join(path, names[k])
      {
        nodeList := nodeList + [Join(path, names[i])];
        i := i + 1;
      }
      r := Done(true);
      JoinedList(path, names, nodeList);
    }

    /**
     * Deletes a node, its descendants first when `recursive`. With one client no inner call fails, so nothing is
     * thrown out of the loop.
     */
    method DeleteNode(path: string, recursive: bool, version: int) returns (r: Outcome)
      requires Closed(zk.nodes)
      modifies zk
      ensures r == DeleteOutcome(old(zk.nodes), path, recursive, version)
      ensures zk.nodes == if r == Done(true) then old(zk.nodes) - Subtree(old(zk.nodes), path) else old(zk.nodes)
      ensures Closed(zk.nodes)
      decreases Subtree(zk.nodes, path)
    {
      if !ValidPath(path) {
        return InvalidPath;
      }
      ghost var before := zk.nodes;
      var rc := zk.Delete(path, version);
      if rc == ZOk {
        LeafSubtree(before, path);
        return Done(true);
      }
      if rc == ZNoNode {
        return Done(false);
      }
      if rc == ZNotEmpty && recursive {
        var got, nodeList := GetNodeChildren(path);
        var i := 0;
        while i < |nodeList|
          invariant 0 <= i <= |nodeList|
          invariant zk.nodes == before - SubtreesOf(before, nodeList[..i])
          invariant Closed(zk.nodes)
        {
          ChildRemains(before, path, nodeList, i, zk.nodes);
          OneMoreGone(before, nodeList, i, zk.nodes);
          var did := DeleteNode(nodeList[i], true, -1);
          i := i + 1;
        }
        assert nodeList[..|nodeList|] == nodeList;
        OnlyRootRemains(before, path, nodeList, zk.nodes);
        r := DeleteNode(path, false, -1);
        return;
      }
      return Failed(rc);
    }

    /** Creates a node, with its missing ancestors from the top down if `createAncestors`. */
    method CreateNode(path: string, value: string, createAncestors: bool) returns (r: Outcome)
      requires Closed(zk.nodes)
      modifies zk
      ensures r == CreateOutcome(old(zk.nodes), path, createAncestors)
      ensures zk.nodes == if r == Done(true) then WithNode(old(zk.nodes), path, value) else old(zk.nodes)
      ensures Closed(zk.nodes)
      decreases |path|, createAncestors
    {
      if !ValidPath(path) {
        return InvalidPath;
      }
      ghost var before := zk.nodes;
      var rc := zk.Create(path, value);
      if rc == ZOk {
        NothingToFill(before, path, "");
        return Done(true);
      }
      if rc == ZNodeExists {
        return Done(false);
      }
      if rc == ZNoNode && createAncestors {
        var pos := 1;
        var next := FindSlash(path, pos);
        while next.Some?
          invariant 0 < pos <= |path| && path[pos - 1] == '/' && next == FindSlash(path, pos)
          invariant zk.nodes == Filled(before, Cuts(path, pos), "")
          invariant Closed(zk.nodes)
          decreases |path| - pos
        {
          ValidCut(path, next.value);
          ghost var now := zk.nodes;
          var did := CreateNode(path[..next.value], "", true);

          CutCreated(before, path, pos, next.value, now, zk.nodes);
          pos := next.value + 1;
          next := FindSlash(path, pos);
        }
        LastCreate(before, path, pos, value, zk.nodes);
        r := CreateNode(path, value, false);
        return;
      }
      return Failed(rc);
    }
  }

  // ---------- what the two do to the rest of the tree ----------

  /** A delete leaves the children of every remaining node as they were, but for the deleted node in its parent's. */
  lemma {:induction false} OthersKeepChildren(t: Tree, path: string, q: string)
    requires Closed(t) && path in t && q in t - Subtree(t, path)
    ensures Children(t - Subtree(t, path), q) == Children(t, q) - {path}
    ensures (t - Subtree(t, path))[q] == t[q]
  {
    forall c | c in Children(t, q) && c != path
      ensures !Under(path, c)
    {
      UnderParent(path, c);
    }
  }

  /** The missing cut nearest the root, or the node itself: everything else that a create adds is under it. */
  predicate TopmostMissing(t: Tree, path: string, top: string) {
    && (top == path || top in Cuts(path, |path|)) && top !in t
    && forall c | c in Cuts(path, |path|) && |c| < |top| :: c in t
  }

  /** Deleting, with everything under it, the topmost node that a create with ancestors added undoes the create. */
  lemma {:induction false} CreateThenDelete(t: Tree, path: string, value: string, top: string)
    requires Closed(t) && ValidPath(path) && path !in t && TopmostMissing(t, path, top)
    ensures
      var t' := WithNode(t, path, value);
      DeleteOutcome(t', top, true, -1) == Done(true) && t' - Subtree(t', top) == t
  {
    var t' := WithNode(t, path, value);
    assert top != "/";
    CutsUnder(path, top);
    if top != path {
      var i :| 0 < i < |path| && path[i] == '/' && path[..i] == top;
      ValidCut(path, i);
    }
    forall q | q in t
      ensures !Under(top, q)
    {
      if Under(top, q) && q != top {
        AncestorsPresent(t, q, |top|);
      }
    }
    forall q | q in t' && q !in t
      ensures Under(top, q)
    {
      assert q == path || q in Cuts(path, |path|);
    }
  }

  lemma {:induction false} CutsUnder(path: string, top: string)
    requires ValidPath(path) && (top == path || top in Cuts(path, |path|))
    ensures Under(top, path)
    ensures forall c | c in Cuts(path, |path|) && |c| >= |top| :: Under(top, c)
  {
    forall c | c in Cuts(path, |path|) && |c| >= |top|
      ensures Under(top, c)
    {
      var k :| 0 < k < |path| && path[k] == '/' && path[..k] == c;
      if top != path {
        var i :| 0 < i < |path| && path[i] == '/' && path[..i] == top;
        assert path[..k][..i] == path[..i];
      }
    }
    if top != path {
      var i :| 0 < i < |path| && path[i] == '/' && path[..i] == top;
    }
  }

  // ---------- the asynchronous client ----------

  function ToStatus(rc: Rc): Status {
    match rc
    case ZOk => Ok
    case ZNoNode => InvalidKey
    case ZNodeExists => DuplicateKey
    case _ => Invalid
  }

  /** The valid ones among the cuts before position `n`. */
  function ValidCuts(p: string, n: nat): set<string> {
    set q | q in Cuts(p, if n <= |p| then n else |p|) && ValidPath(q)
  }

  function WholeKey(key: string): set<string> {
    ValidCuts(key, |key|) + if ValidPath(key) then {key} else {}
  }

  /** Cutting at the slash at `i`: the cut is valid just if all shorter cuts are. */
  lemma {:induction false} ValidCutsNest(p: string, i: nat, j: nat)
    requires 0 < i < j <= |p| && p[i] == '/' && ValidPath(p[..j])
    ensures ValidPath(p[..i])
  {
    ValidCut(p[..j], i);
    assert p[..j][..i] == p[..i];
  }

  lemma {:induction false} WholeKeyOfValid(key: string)
    requires ValidPath(key)
    ensures WholeKey(key) == Cuts(key, |key|) + {key}
  {
    forall c | c in Cuts(key, |key|)
      ensures ValidPath(c)
    {
      var i :| 0 < i < |key| && key[i] == '/' && key[..i] == c;
      ValidCut(key, i);
    }
  }

  /** No create along the key has failed, up to the component that starts at `n`. */
  predicate GoodSoFar(key: string, n: nat)
    requires 0 < n && (n == 1 || n <= |key|)
  {
    n == 1 || ValidPath(key[..n - 1])
  }

  predicate Component(key: string, n: nat, j: nat) {
    && 0 < n && (n == 1 || (n <= |key| && key[n - 1] == '/'))
    && (n <= j <= |key| || (n == 1 && j == |key| == 0))
    && (j < |key| ==> key[j] == '/')
    && forall k | n <= k < j :: key[k] != '/'
  }

  function OneIfValid(path: string): set<string> { if ValidPath(path) then {path} else {} }

  /** Creating the node that ends at `j`, once all before it are there. */
  lemma {:induction false} ComponentCreated(t: Tree, key: string, n: nat, j: nat, value: string, now: Tree)
    requires Closed(now) && Component(key, n, j) && now == Filled(t, ValidCuts(key, n), value)
    ensures !GoodSoFar(key, n) ==> !ValidPath(key[..j])
    ensures GoodSoFar(key, n) ==>
              CreateRc(now, key[..j]) ==
              if !ValidPath(key[..j]) then ZBadArguments else if key[..j] in now then ZNodeExists else ZOk
    ensures Filled(now, OneIfValid(key[..j]), value) == Filled(t, ValidCuts(key, n) + OneIfValid(key[..j]), value)
  {
    var path := key[..j];
    FilledTwice(t, ValidCuts(key, n), OneIfValid(path), value);
    if ValidPath(path) {
      if n > 1 {
        ValidCutsNest(key, n - 1, j);
        assert key[..n - 1] in Cuts(key, n);
      }
      if path != "/" {
        assert path[..|path|] == path;
        ParentOfCut(path, n, |path|);
        assert n > 1 ==> path[..n - 1] == key[..n - 1];
      }
    }
  }

  lemma {:induction false} ValidCutsGrow(key: string, n: nat, j: nat)
    requires Component(key, n, j)
    ensures j < |key| ==> ValidCuts(key, j + 1) == ValidCuts(key, n) + OneIfValid(key[..j])
    ensures j == |key| ==> WholeKey(key) == ValidCuts(key, n) + OneIfValid(key[..j]) && key !in ValidCuts(key, n)
  {
    if j < |key| {
      NextCut(key, n, j);
    } else {
      assert key[..j] == key;
      var m := if n <= |key| then n else |key|;
      forall c | c in Cuts(key, |key|)
        ensures c in Cuts(key, m) && |c| < |key|
      {
        var k :| 0 < k < |key| && key[k] == '/' && key[..k] == c;
        assert k < n;
      }
    }
  }

  /** Where the walk along a key stands when the component at `n` is next. */
  predicate Underway(t: Tree, key: string, n: nat, value: string, now: Tree, f: Status) {
    && 0 < n && (n == 1 || (n <= |key| && key[n - 1] == '/'))
    && now == Filled(t, ValidCuts(key, n), value)
    && (if GoodSoFar(key, n) then f == Ok || f == DuplicateKey else f == Invalid)
  }

  function CreateAllStatus(t: Tree, key: string): Status {
    if !ValidPath(key) then Invalid else if key in t then DuplicateKey else Ok
  }

  /** What one create at the server does, with the status the client makes of the result code. */
  function Created(t: Tree, path: string, value: string): (Tree, Status) {
    var rc := CreateRc(t, path);
    (if rc == ZOk then t[path := Node(value, 0)] else t, ToStatus(rc))
  }

  lemma {:induction false} CreatedFills(now: Tree, path: string, value: string)
    requires CreateRc(now, path) == if !ValidPath(path) then ZBadArguments else if path in now then ZNodeExists else ZOk
    ensures Created(now, path, value) == (Filled(now, OneIfValid(path), value), CreateAllStatus(now, path))
  {
    var filled := Filled(now, OneIfValid(path), value);
    assert CreateRc(now, path) == ZOk ==> filled == now[path := Node(value, 0)];
    assert CreateRc(now, path) != ZOk ==> filled == now;
  }

  lemma {:induction false} WalkOn(
      t: Tree, key: string, n: nat, j: nat, value: string, now: Tree, f: Status, after: Tree, f': Status)
    requires Closed(now) && Underway(t, key, n, value, now, f) && Component(key, n, j)
    requires (after, f') == if f == Ok || f == DuplicateKey then Created(now, key[..j], value) else (now, f)
    ensures after == Filled(t, ValidCuts(key, n) + OneIfValid(key[..j]), value)
    ensures f' == CreateAllStatus(now, key[..j])
  {
    ComponentCreated(t, key, n, j, value, now);
    if f == Ok || f == DuplicateKey {
      CreatedFills(now, key[..j], value);
    } else {
      assert !ValidPath(key[..j]);
      assert ValidCuts(key, n) + OneIfValid(key[..j]) == ValidCuts(key, n);
    }
  }

  lemma {:induction false} WalkedOn(
      t: Tree, key: string, n: nat, j: nat, value: string, now: Tree, after: Tree, f': Status)
    requires Component(key, n, j) && now == Filled(t, ValidCuts(key, n), value)
    requires after == Filled(t, ValidCuts(key, n) + OneIfValid(key[..j]), value) && f' == CreateAllStatus(now, key[..j])
    ensures j < |key| ==> Underway(t, key, j + 1, value, after, f')
    ensures j == |key| ==> after == Filled(t, WholeKey(key), value) && f' == CreateAllStatus(t, key)
  {
    ValidCutsGrow(key, n, j);
    assert j == |key| ==> key[..j] == key;
  }

  /** The walk with the next component, if there is one, at `pos`. */
  predicate Walk(t: Tree, key: string, pos: Option<nat>, value: string, now: Tree, f: Status) {
    match pos
    case Some(n) => Underway(t, key, n, value, now, f)
    case None => now == Filled(t, WholeKey(key), value) && f == CreateAllStatus(t, key)
  }

  function NextPath(key: string, n: nat): string {
    if FindSlash(key, n).Some? then key[..FindSlash(key, n).value] else key
  }

  function NextPos(key: string, n: nat): Option<nat> {
    if FindSlash(key, n).Some? then Some(FindSlash(key, n).value + 1) else None
  }

  lemma {:induction false} WalkStep(
      t: Tree, key: string, n: nat, value: string, now: Tree, f: Status, after: Tree, f': Status)
    requires Closed(now) && Walk(t, key, Some(n), value, now, f)
    requires (after, f') == if f == Ok || f == DuplicateKey then Created(now, NextPath(key, n), value) else (now, f)
    ensures Walk(t, key, NextPos(key, n), value, after, f')
  {
    var next := FindSlash(key, n);
    var j := if next.Some? then next.value else |key|;
    assert key[..j] == NextPath(key, n);
    WalkOn(t, key, n, j, value, now, f, after, f');
    WalkedOn(t, key, n, j, value, now, after, f');
  }

  lemma {:induction false} WalkBegins(t: Tree, key: string, value: string)
    ensures Walk(t, key, Some(1), value, t, Ok)
  {
    assert ValidCuts(key, 1) == {};
  }

  class ZooKafkaClient {
    const zk: ZkServer

    constructor (server: ZkServer)
      ensures zk == server
    {
      zk := server;
    }

    /** One link of the chain: an earlier failure is passed on, but for a duplicate key. */
    method Then(f: Status, path: string, value: string) returns (f': Status)
      requires Closed(zk.nodes)
      modifies zk
      ensures (zk.nodes, f') ==
              if f == Ok || f == DuplicateKey then Created(old(zk.nodes), path, value) else (old(zk.nodes), f)
      ensures Closed(zk.nodes)
    {
      if f != Ok && f != DuplicateKey {
        return f;
      }
      var rc := zk.Create(path, value);
      return ToStatus(rc);
    }

    /**
     * Creates the nodes along `key` one after the other, all with `value`. A malformed key fails, but not before
     * the well-formed nodes along it are there.
     */
    method CreateIncludingAncestors(key: string, value: string) returns (f: Status)
      requires Closed(zk.nodes)
      modifies zk
      ensures f == if !ValidPath(key) then Invalid else if key in old(zk.nodes) then DuplicateKey else Ok
      ensures zk.nodes == Filled(old(zk.nodes), WholeKey(key), value)
      ensures Closed(zk.nodes)
    {
      ghost var before := zk.nodes;
      f := Ok;
      var pos := Some(1);
      WalkBegins(before, key, value);
      while pos.Some?
        invariant Closed(zk.nodes)
        invariant Walk(before, key, pos, value, zk.nodes, f)
        decreases if pos.Some? then |key| + 2 - pos.value else 0
      {
        ghost var now, was, n := zk.nodes, f, pos.value;
        var next := FindSlash(key, pos.value);
        var path := if next.Some? then key[..next.value] else key;
        pos := if next.Some? then Some(next.value + 1) else None;
        assert path == NextPath(key, n) && pos == NextPos(key, n);
        f := Then(f, path, value);
        WalkStep(before, key, n, value, now, was, zk.nodes, f);
      }
    }
  }
}
