/**
 * What the coordination service answers to a create and a delete, by the tree alone (src/infra/zk/zkadapter.cc).
 */
module ZkAnswers {
  import opened Common
  import opened ZkTree

  // ---------- paths ----------

  predicate IsName(name: string) { name != "" && '/' !in name }

  /** Putting a name after a well-formed path gives a well-formed path, with that path as its parent. */
  lemma {:induction false} JoinIsChild(path: string, name: string)
    requires ValidPath(path) && IsName(name)
    ensures IsChild(path, Join(path, name))
  {
    var p := Join(path, name);
    var n := |p| - |name|;
    assert p[n..] == name && p[n - 1] == '/';
    forall k | n <= k < |p|
      ensures p[k] != '/'
    {
      assert p[k] == name[k - n];
    }
    forall k | 0 <= k < |p| - 1
      ensures !(p[k] == '/' && p[k + 1] == '/')
    {
      if k + 1 < n - 1 {
        assert path[k] == p[k] && path[k + 1] == p[k + 1];
      }
    }
    assert path != "/" ==> p[..n - 1] == path;
  }

  /** The well-formed paths are the root and what names build on it: nothing else is accepted, and nothing less. */
  lemma {:induction false} ValidPathIff(p: string)
    ensures ValidPath(p) <==>
            p == "/" || exists parent, name :: ValidPath(parent) && IsName(name) && p == Join(parent, name)
  {
    if ValidPath(p) && p != "/" {
      var ls := LastSlash(p);
      ParentValid(p);
      NameJoins(Parent(p), p);
      var name := p[ls + 1..];
      assert IsName(name) && p == Join(Parent(p), name);
    }
    if parent, name :| ValidPath(parent) && IsName(name) && p == Join(parent, name) {
      JoinIsChild(parent, name);
    }
  }

  // ---------- answers ----------

  /** The node has a child. */
  ghost predicate HasChild(t: Tree, path: string) { exists name :: IsName(name) && Join(path, name) in t }

  lemma {:induction false} ChildIff(t: Tree, path: string)
    requires Closed(t) && ValidPath(path)
    ensures Children(t, path) != {} <==> HasChild(t, path)
  {
    if q :| q in Children(t, path) {
      NameJoins(path, q);
      assert IsName(q[LastSlash(q) + 1..]);
    }
    if name :| IsName(name) && Join(path, name) in t {
      JoinIsChild(path, name);
      assert Join(path, name) in Children(t, path);
    }
  }

  /** Exactly which answer a delete gets. */
  lemma {:induction false} DeleteAnswerIff(t: Tree, path: string, recursive: bool, version: int)
    requires Closed(t)
    ensures
      var answer := DeleteOutcome(t, path, recursive, version);
      var fits := version == -1 || (path in t && t[path].version == version);
      && (answer == InvalidPath <==> !ValidPath(path))
      && (answer == Done(false) <==> ValidPath(path) && path !in t)
      && (answer == Failed(ZBadArguments) <==> path == "/")
      && (answer == Failed(ZBadVersion) <==> path in t && path != "/" && !fits)
      && (answer == Failed(ZNotEmpty) <==> path in t && path != "/" && fits && HasChild(t, path) && !recursive)
      && (answer == Done(true) <==> path in t && path != "/" && fits && (recursive || !HasChild(t, path)))
  {
    if ValidPath(path) {
      ChildIff(t, path);
    }
  }

  /** Exactly which answer a create gets. */
  lemma {:induction false} CreateAnswerIff(t: Tree, path: string, name: string, createAncestors: bool)
    requires Closed(t) && ValidPath(path) && IsName(name)
    ensures
      var answer := CreateOutcome(t, Join(path, name), createAncestors);
      && (answer == Done(false) <==> Join(path, name) in t)
      && (answer == Done(true) <==> Join(path, name) !in t && (path in t || createAncestors))
      && (answer == Failed(ZNoNode) <==> path !in t && !createAncestors)
  {
    JoinIsChild(path, name);
  }

  /**
   * A node just created is there with its value, its missing ancestors are there without one, and all else is as it
   * was; a second create finds it, and a delete may leave its version open or name the first, and no other.
   */
  lemma {:induction false} CreatedIsThere(
      t: Tree, path: string, value: string, recursive: bool, version: int, createAncestors: bool)
    requires Closed(t) && ValidPath(path) && path !in t
    ensures
      var t' := WithNode(t, path, value);
      && CreateOutcome(t', path, createAncestors) == Done(false)
      && DeleteOutcome(t', path, recursive, version) ==
         (if version == -1 || version == 0 then Done(true) else Failed(ZBadVersion))
      && t'[path].data == value
      && (forall c | c in Cuts(path, |path|) && c !in t :: c in t' && t'[c].data == "")
      && (forall q | q in t :: q in t' && t'[q] == t[q])
  {
    var t' := WithNode(t, path, value);
    forall q | q in t'
      ensures !IsChild(path, q)
    {
      if IsChild(path, q) {
        ChildUnder(path, q);
      }
    }
    assert Children(t', path) == {};
  }

  /** Exactly which status one create of the asynchronous client has, and what it leaves. */
  lemma {:induction false} CreatedStatusIff(t: Tree, path: string, value: string)
    requires Closed(t)
    ensures
      var (t', status) := Created(t, path, value);
      && (status == Invalid <==> !ValidPath(path))
      && (status == DuplicateKey <==> path in t)
      && (status == InvalidKey <==> ValidPath(path) && path !in t && Parent(path) !in t)
      && (status == Ok <==> ValidPath(path) && path !in t && Parent(path) in t)
      && t' == if status == Ok then t[path := Node(value, 0)] else t
  {
  }
}
