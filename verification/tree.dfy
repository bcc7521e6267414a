/**
 * Tree simplification (`simplify_tree`): every node that the walk reaches
 * loses six metadata keys; a node at or below the depth limit has its
 * `children` emptied; above the limit the walk descends into the children
 * that are dicts.
 */
module Tree {
  import opened Json

  /** The metadata keys removed from every visited node, in the order they
      are removed. */
  const MetadataKeys: seq<string> :=
    ["htmlMetadata", "debugInfo", "sourceSelector", "componentSignature", "contentHash", "cssVariables"]

  function MetadataSet(): set<string> {
    KeySet(MetadataKeys)
  }

  /** `simplify_tree(node, max_depth, depth)` on a node that is a dict, and
      the identity on a list element that is not (the walk skips those). */
  function Simplify(node: Value, maxDepth: nat, depth: nat): (r: Value)
    ensures node.Obj? ==> r.Obj? && |r.fields| <= |node.fields|
    decreases node
  {
    match node
    case Obj(fields) =>
      var stripped := RemoveKeys(fields, MetadataSet());
      assert |Replace(stripped, "children", Arr([]))| == |Keys(stripped)|;
      if depth >= maxDepth then
        if HasKey(stripped, "children") then Obj(Replace(stripped, "children", Arr([]))) else Obj(stripped)
      else
        (match Lookup(stripped, "children")
         case Some(Arr(items)) =>
           assert ("children", Arr(items)) in fields;
           var kids := SimplifyAll(items, maxDepth, depth + 1, node);
           assert |Replace(stripped, "children", Arr(kids))| == |Keys(stripped)|;
           Obj(Replace(stripped, "children", Arr(kids)))
         case _ => Obj(stripped))
    case _ => node
  }

  /** The children of `parent`, each simplified one level deeper. */
  function SimplifyAll(items: seq<Value>, maxDepth: nat, depth: nat, ghost parent: Value): (r: seq<Value>)
    requires forall i :: 0 <= i < |items| ==> items[i] < parent
    ensures |r| == |items|
    ensures forall i :: 0 <= i < |items| ==> r[i] == Simplify(items[i], maxDepth, depth)
    decreases parent, |items|
  {
    if items == [] then [] else [Simplify(items[0], maxDepth, depth)] + SimplifyAll(items[1..], maxDepth, depth, parent)
  }

  /** The call at the root, `simplify_tree(data['tree'], max_depth)`: on a
      root that is not a dict the membership tests raise or find nothing, and
      a key found cannot be deleted or read. */
  function SimplifyRoot(tree: Value, maxDepth: nat): (r: Outcome<Value>)
    ensures tree.Obj? ==> r.Ok?
    ensures !tree.Obj? ==>
      (r.Ok? <==> forall i :: 0 <= i < |MetadataKeys + ["children"]| ==> In((MetadataKeys + ["children"])[i], tree) == Ok(false))
    ensures !tree.Obj? && r.Ok? ==> r.value == tree
  {
    if tree.Obj? then Ok(Simplify(tree, maxDepth, 0)) else NonDictAccess(tree, MetadataKeys + ["children"])
  }

  /** What the walk promises of a node at `depth`: no metadata key; at or
      below the limit, `children` (if any) is empty; above it, every child
      in a `children` list is simplified one level deeper. */
  predicate Simplified(node: Value, maxDepth: nat, depth: nat)
    decreases node
  {
    match node
    case Obj(fields) =>
      && (forall k :: k in MetadataSet() ==> !HasKey(fields, k))
      && (depth >= maxDepth && HasKey(fields, "children") ==> Lookup(fields, "children") == Some(Arr([])))
      && (depth < maxDepth ==>
           match Lookup(fields, "children")
           case Some(Arr(items)) =>
             assert ("children", Arr(items)) in fields;
             forall i :: 0 <= i < |items| ==> Simplified(items[i], maxDepth, depth + 1)
           case _ => true)
    case _ => true
  }

  /** Every node the walk reaches ends up simplified. */
  lemma {:induction false} SimplifyCleans(node: Value, maxDepth: nat, depth: nat)
    ensures Simplified(Simplify(node, maxDepth, depth), maxDepth, depth)
    decreases node
  {
    if node.Obj? {
      var stripped := RemoveKeys(node.fields, MetadataSet());
      if depth < maxDepth {
        match Lookup(stripped, "children")
        case Some(Arr(items)) =>
          assert ("children", Arr(items)) in node.fields;
          var kids := SimplifyAll(items, maxDepth, depth + 1, node);
          var fields := Replace(stripped, "children", Arr(kids));
          assert Lookup(fields, "children") == Some(Arr(kids));
          forall i | 0 <= i < |kids|
            ensures Simplified(kids[i], maxDepth, depth + 1)
          {
            SimplifyCleans(items[i], maxDepth, depth + 1);
          }
        case _ =>
      }
    }
  }

  /** A simplified node is left as it is. */
  lemma {:induction false} SimplifiedIsFixed(node: Value, maxDepth: nat, depth: nat)
    requires Simplified(node, maxDepth, depth)
    ensures Simplify(node, maxDepth, depth) == node
    decreases node
  {
    if node.Obj? {
      var fields := node.fields;
      RemoveAbsentKeys(fields, MetadataSet());
      if depth >= maxDepth {
        if HasKey(fields, "children") {
          ReplaceWithSame(fields, "children", Arr([]));
        }
      } else {
        match Lookup(fields, "children")
        case Some(Arr(items)) =>
          assert ("children", Arr(items)) in fields;
          var kids := SimplifyAll(items, maxDepth, depth + 1, node);
          forall i | 0 <= i < |items|
            ensures kids[i] == items[i]
          {
            SimplifiedIsFixed(items[i], maxDepth, depth + 1);
          }
          assert kids == items;
          ReplaceWithSame(fields, "children", Arr(items));
        case _ =>
      }
    }
  }

  /** The nodes the walk leaves unchanged are exactly the simplified ones;
      so walking twice with the same limit gives what walking once gives. */
  lemma SimplifyIdempotent(node: Value, maxDepth: nat, depth: nat)
    ensures Simplify(node, maxDepth, depth) == node <==> Simplified(node, maxDepth, depth)
    ensures Simplify(Simplify(node, maxDepth, depth), maxDepth, depth) == Simplify(node, maxDepth, depth)
  {
    SimplifyCleans(node, maxDepth, depth);
    SimplifiedIsFixed(Simplify(node, maxDepth, depth), maxDepth, depth);
    if Simplified(node, maxDepth, depth) {
      SimplifiedIsFixed(node, maxDepth, depth);
    }
  }

  lemma ChildrenIsNotMetadata()
    ensures "children" !in MetadataSet()
  {
    assert "children" != MetadataKeys[0] && "children" != MetadataKeys[1] && "children" != MetadataKeys[2];
    assert "children" != MetadataKeys[3] && "children" != MetadataKeys[4] && "children" != MetadataKeys[5];
  }

  /** The walk deletes the metadata keys and nothing else, and changes no
      value but that of `children`. */
  lemma SimplifyKeepsOtherKeys(node: Value, maxDepth: nat, depth: nat)
    requires node.Obj?
    ensures var r := Simplify(node, maxDepth, depth);
      && r.Obj?
      && Keys(r.fields) == RemoveAll(Keys(node.fields), MetadataSet())
      && (forall k :: k !in MetadataSet() && k != "children" ==> Lookup(r.fields, k) == Lookup(node.fields, k))
  {
    var stripped := RemoveKeys(node.fields, MetadataSet());
    KeysOfRemoveKeys(node.fields, MetadataSet());
    var r := Simplify(node, maxDepth, depth);
    if depth >= maxDepth {
      if HasKey(stripped, "children") {
        assert r.fields == Replace(stripped, "children", Arr([]));
      } else {
        assert r.fields == stripped;
      }
    } else {
      match Lookup(stripped, "children")
      case Some(Arr(items)) =>
        assert ("children", Arr(items)) in node.fields;
        assert r.fields == Replace(stripped, "children", Arr(SimplifyAll(items, maxDepth, depth + 1, node)));
      case _ =>
        assert r.fields == stripped;
    }
  }

  /** The new `children`: emptied at or below the limit; above it, a list
      keeps its length, its order and its elements that are not dicts, and
      anything else is left as it is. */
  lemma SimplifyChildren(node: Value, maxDepth: nat, depth: nat)
    requires node.Obj?
    ensures var r := Simplify(node, maxDepth, depth);
      depth >= maxDepth ==>
        Lookup(r.fields, "children") == if HasKey(node.fields, "children") then Some(Arr([])) else None
    ensures var r := Simplify(node, maxDepth, depth);
      depth < maxDepth ==>
        match Lookup(node.fields, "children")
        case Some(Arr(items)) =>
          && Lookup(r.fields, "children").Some?
          && Lookup(r.fields, "children").value.Arr?
          && var kids := Lookup(r.fields, "children").value.items;
          && |kids| == |items|
          && forall i :: 0 <= i < |items| && !items[i].Obj? ==> kids[i] == items[i]
        case other => Lookup(r.fields, "children") == other
  {
    var stripped := RemoveKeys(node.fields, MetadataSet());
    ChildrenIsNotMetadata();
    assert Lookup(stripped, "children") == Lookup(node.fields, "children");
  }

  /** Simplifying the root a second time with the same limit changes nothing. */
  lemma SimplifyRootIdempotent(tree: Value, maxDepth: nat)
    requires SimplifyRoot(tree, maxDepth).Ok?
    ensures var once := SimplifyRoot(tree, maxDepth).value;
      SimplifyRoot(once, maxDepth) == Ok(once)
  {
    if tree.Obj? {
      SimplifyKeepsOtherKeys(tree, maxDepth, 0);
      SimplifyIdempotent(tree, maxDepth, 0);
    }
  }

  /** `simplify_tree` as the source runs it: delete each metadata key that is
      present, then either empty `children` or walk into the children that
      are dicts. */
  method SimplifyNode(node: Value, maxDepth: nat, depth: nat) returns (r: Value)
    requires node.Obj?
    ensures r == Simplify(node, maxDepth, depth)
    decreases node, 1
  {
    var fields := DeletePresent(node.fields, MetadataKeys);
    ghost var stripped := fields;
    assert stripped == RemoveKeys(node.fields, MetadataSet());
    if depth >= maxDepth {
      if HasKey(fields, "children") {
        fields := Replace(fields, "children", Arr([]));
        assert Simplify(node, maxDepth, depth) == Obj(fields);
      } else {
        assert Simplify(node, maxDepth, depth) == Obj(fields);
      }
      return Obj(fields);
    }
    var children := Lookup(fields, "children");
    if children.Some? && children.value.Arr? {
      var items := children.value.items;
      assert ("children", Arr(items)) in node.fields;
      var kids := SimplifyChildNodes(items, maxDepth, depth + 1, node);
      fields := Replace(fields, "children", Arr(kids));
      assert Simplify(node, maxDepth, depth) == Obj(Replace(stripped, "children", Arr(kids)));
    } else {
      assert Simplify(node, maxDepth, depth) == Obj(stripped);
    }
    return Obj(fields);
  }

  /** `for child in node['children']: if isinstance(child, dict): ...`; each
      dict child is updated where it stands in the list. */
  method SimplifyChildNodes(items: seq<Value>, maxDepth: nat, depth: nat, ghost parent: Value) returns (kids: seq<Value>)
    requires forall i :: 0 <= i < |items| ==> items[i] < parent
    ensures kids == SimplifyAll(items, maxDepth, depth, parent)
    decreases parent, 0
  {
    ghost var simplified := SimplifyAll(items, maxDepth, depth, parent);
    kids := items;
    for i := 0 to |items|
      invariant |kids| == |items|
      invariant forall n :: 0 <= n < i ==> kids[n] == simplified[n]
      invariant forall n :: i <= n < |items| ==> kids[n] == items[n]
    {
      if kids[i].Obj? {
        var child := SimplifyNode(kids[i], maxDepth, depth);
        kids := kids[i := child];
      }
    }
  }
}
