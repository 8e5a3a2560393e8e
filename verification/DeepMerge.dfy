/** Deep-merging user configuration over defaults (internal/controller/claw_configmap.go). */
module DeepMerge {
  import opened Common

  /** A decoded JSON value; numbers, strings, arrays and null are opaque leaves. */
  datatype Json = Leaf(v: string) | Obj(fields: map<string, Json>)

  /** The merge as a function: objects merge key by key, anything else is replaced. */
  function Merge(x: Json, y: Json): Json
    decreases y
  {
    if x.Obj? && y.Obj? then
      Obj(map k | k in x.fields.Keys + y.fields.Keys ::
            if k !in y.fields then x.fields[k]
            else if k !in x.fields then y.fields[k]
            else Merge(x.fields[k], y.fields[k]))
    else y
  }

  function Lookup(j: Json, path: seq<string>): Option<Json>
    decreases |path|
  {
    if path == [] then Some(j)
    else if j.Obj? && path[0] in j.fields then Lookup(j.fields[path[0]], path[1..])
    else None
  }

  /** Walking the path, `y` has objects until it lacks the next key: it does not speak about it. */
  predicate Silent(y: Json, path: seq<string>)
    decreases |path|
  {
    y.Obj? && path != [] && (path[0] !in y.fields || Silent(y.fields[path[0]], path[1..]))
  }

  /** Every path of the merged tree, decided: a leaf is there exactly when the source has it, or the
      destination has it and the source is silent about that path. */
  lemma {:induction false} MergedLeaves(x: Json, y: Json, path: seq<string>, v: string)
    ensures Lookup(Merge(x, y), path) == Some(Leaf(v))
            <==> Lookup(y, path) == Some(Leaf(v)) || (Lookup(x, path) == Some(Leaf(v)) && Silent(y, path))
    decreases |path|
  {
    if path != [] && x.Obj? && y.Obj? {
      var k := path[0];
      if k in x.fields && k in y.fields {
        MergedLeaves(x.fields[k], y.fields[k], path[1..], v);
      }
    }
  }

  /** Merging the same source again changes nothing. */
  lemma {:induction false} MergeIdempotent(x: Json, y: Json)
    ensures Merge(Merge(x, y), y) == Merge(x, y)
    decreases y
  {
    if x.Obj? && y.Obj? {
      var m := Merge(x, y);
      forall k | k in y.fields ensures Merge(m.fields[k], y.fields[k]) == m.fields[k] {
        if k in x.fields { MergeIdempotent(x.fields[k], y.fields[k]); }
        else { MergeSelf(y.fields[k]); }
      }
      assert Merge(m, y).fields == m.fields;
    } else {
      MergeSelf(y);
    }
  }

  lemma {:induction false} MergeSelf(y: Json)
    ensures Merge(y, y) == y
    decreases y
  {
    if y.Obj? {
      forall k | k in y.fields ensures Merge(y.fields[k], y.fields[k]) == y.fields[k] {
        MergeSelf(y.fields[k]);
      }
      assert Merge(y, y).fields == y.fields;
    }
  }

  // ---- In place, on mutable maps ----

  datatype Val = Scalar(v: string) | Child(o: Node)

  /** A Go map, with the set of maps its tree is made of. */
  class Node {
    var fields: map<string, Val>
    ghost var repr: set<Node>

    /** A tree: no map is reached twice. */
    ghost predicate Valid()
      reads this, repr
      decreases repr
    {
      && this in repr
      && (forall k | k in fields && fields[k].Child? ::
            && fields[k].o in repr && fields[k].o.repr <= repr && this !in fields[k].o.repr && fields[k].o.Valid())
      && (forall j, k | j in fields && k in fields && j != k && fields[j].Child? && fields[k].Child? ::
            fields[j].o.repr !! fields[k].o.repr)
    }

    ghost function Tree(): (t: Json)
      requires Valid()
      reads this, repr
      ensures t.Obj? && t.fields.Keys == fields.Keys
      decreases repr
    {
      Obj(map k | k in fields :: if fields[k].Child? then fields[k].o.Tree() else Leaf(fields[k].v))
    }
  }

  /** The tree behind a value. */
  ghost function ValTree(v: Val): Json
    requires v.Child? ==> v.o.Valid()
    reads if v.Child? then {v.o} + v.o.repr else {}
  {
    if v.Child? then v.o.Tree() else Leaf(v.v)
  }

  /** dst[key] = v, for a value whose tree is apart from the destination's. */
  method SetField(dst: Node, k: string, v: Val)
    requires dst.Valid() && (v.Child? ==> v.o.Valid() && v.o.repr !! dst.repr)
    modifies dst
    ensures dst.Valid() && dst.fields == old(dst.fields)[k := v]
    ensures dst.Tree() == Obj(old(dst.Tree()).fields[k := old(ValTree(v))])
    ensures dst.repr == old(dst.repr) + if v.Child? then v.o.repr else {}
  {
    dst.fields := dst.fields[k := v];
    if v.Child? { dst.repr := dst.repr + v.o.repr; }
  }

  /** A tree but for the child at `k`, which may have outgrown the set of maps on record. */
  ghost predicate Loose(dst: Node, k: string)
    reads *
  {
    && dst in dst.repr
    && (forall j | j in dst.fields && dst.fields[j].Child? ::
          var o := dst.fields[j].o;
          && o.Valid() && o in dst.repr && dst !in o.repr && (j != k ==> o.repr <= dst.repr))
    && (forall i, j | i in dst.fields && j in dst.fields && i != j && dst.fields[i].Child? && dst.fields[j].Child? ::
          dst.fields[i].o.repr !! dst.fields[j].o.repr)
  }

  /** Records the maps the child has taken over. */
  method Settle(dst: Node, k: string)
    requires k in dst.fields && dst.fields[k].Child? && Loose(dst, k)
    modifies dst`repr
    ensures dst.Valid() && dst.repr == old(dst.repr) + dst.fields[k].o.repr
    ensures forall j | j in dst.fields :: dst.Tree().fields[j] == old(ValTree(dst.fields[j]))
  {
    dst.repr := dst.repr + dst.fields[k].o.repr;
  }

  /** dst[key] = deepMerge(dst[key], srcMap), when both are maps. */
  method MergeChild(dst: Node, k: string, sub: Node)
    requires dst.Valid() && k in dst.fields && dst.fields[k].Child?
    requires sub.Valid() && sub.repr !! dst.repr
    modifies dst, dst.fields[k].o.repr
    ensures dst.Valid() && dst.fields == old(dst.fields)
    ensures dst.Tree() == Obj(old(dst.Tree()).fields[k := Merge(old(dst.fields[k].o.Tree()), old(sub.Tree()))])
    ensures old(dst.repr) <= dst.repr <= old(dst.repr) + sub.repr
    ensures forall j | j in dst.fields && j != k && dst.fields[j].Child? ::
              dst.fields[j].o.repr == old(dst.fields[j].o.repr)
    decreases sub.repr, 2
  {
    var c := dst.fields[k].o;
    ghost var was := dst.Tree();
    MergeInto(c, sub);
    forall j | j in dst.fields && j != k && dst.fields[j].Child?
      ensures var o := dst.fields[j].o; o.Valid() && o.repr == old(o.repr) && o.Tree() == was.fields[j]
    {
      var o := dst.fields[j].o;
      assert old(o.repr !! c.repr) && o in old(o.repr);
    }
    Settle(dst, k);
    assert dst.Tree().fields == was.fields[k := c.Tree()];
  }

  /** One turn of the loop. */
  method MergeKey(dst: Node, k: string, srcVal: Val)
    requires dst.Valid() && (srcVal.Child? ==> srcVal.o.Valid() && srcVal.o.repr !! dst.repr)
    modifies dst, if k in dst.fields && dst.fields[k].Child? then dst.fields[k].o.repr else {}
    ensures dst.Valid()
    ensures dst.Tree() == Obj(old(dst.Tree()).fields[k :=
              if k in old(dst.fields) then Merge(old(dst.Tree()).fields[k], old(ValTree(srcVal)))
              else old(ValTree(srcVal))])
    ensures old(dst.repr) <= dst.repr <= old(dst.repr) + if srcVal.Child? then srcVal.o.repr else {}
    ensures forall j | j != k && j in dst.fields :: j in old(dst.fields) && dst.fields[j] == old(dst.fields)[j]
              && (dst.fields[j].Child? ==> dst.fields[j].o.repr == old(dst.fields[j].o.repr))
    decreases if srcVal.Child? then srcVal.o.repr else {}, 3
  {
    if k in dst.fields && dst.fields[k].Child? && srcVal.Child? {
      MergeChild(dst, k, srcVal.o);
    } else {
      SetField(dst, k, srcVal);
    }
  }

  /** The part of the merge done when the keys in `left` are still to come. */
  ghost function Partial(x: Json, y: Json, left: set<string>): Json
    requires x.Obj? && y.Obj?
  {
    Obj(map k | k in x.fields.Keys + (y.fields.Keys - left) ::
          if k !in y.fields || k in left then x.fields[k]
          else if k !in x.fields then y.fields[k]
          else Merge(x.fields[k], y.fields[k]))
  }

  lemma PartialStep(x: Json, y: Json, left: set<string>, k: string)
    requires x.Obj? && y.Obj? && k in left && k in y.fields
    ensures Partial(x, y, left - {k})
            == Obj(Partial(x, y, left).fields[k :=
                     if k in x.fields then Merge(x.fields[k], y.fields[k]) else y.fields[k]])
  {
    assert Partial(x, y, left - {k}).fields
        == Partial(x, y, left).fields[k := if k in x.fields then Merge(x.fields[k], y.fields[k]) else y.fields[k]];
  }

  /** The loop between two turns. `was` is the destination's original tree of maps. */
  ghost predicate Midway(dst: Node, src: Node, left: set<string>, was: set<Node>, x: Json, y: Json)
    requires x.Obj? && y.Obj?
    reads dst, dst.repr, src, src.repr
  {
    && src.Valid() && src.Tree() == y && left <= src.fields.Keys && was !! src.repr
    && dst in was && dst.Valid() && dst.Tree() == Partial(x, y, left)
    && was <= dst.repr <= was + src.repr
    && (forall k | k in left && src.fields[k].Child? :: src.fields[k].o.repr !! dst.repr)
    && (forall k | k in left && k in dst.fields && dst.fields[k].Child? :: dst.fields[k].o.repr <= was)
  }

  lemma FieldOf(src: Node, k: string)
    requires src.Valid() && k in src.fields
    ensures src.fields[k].Child? ==> src.fields[k].o.Valid() && src.fields[k].o.repr < src.repr
    ensures src.Tree().fields[k] == ValTree(src.fields[k])
  {
  }

  method Turn(dst: Node, src: Node, k: string, left: set<string>, ghost was: set<Node>, ghost x: Json, ghost y: Json)
    requires x.Obj? && y.Obj? && Midway(dst, src, left, was, x, y) && k in left
    modifies was
    ensures Midway(dst, src, left - {k}, was, x, y) && src.repr == old(src.repr)
    decreases src.repr, 0
  {
    FieldOf(src, k);
    PartialStep(x, y, left, k);
    assert k in dst.fields <==> k in x.fields;
    if k in dst.fields && dst.fields[k].Child? { assert dst.fields[k].o.repr <= was; }
    MergeKey(dst, k, src.fields[k]);
  }

  /** deepMerge: for trees that share no map, in whatever order the source is visited, the
      destination ends as the functional merge of what the two were; the source is not touched,
      its submaps being taken over by reference. */
  method MergeInto(dst: Node, src: Node)
    requires dst.Valid() && src.Valid() && dst.repr !! src.repr
    modifies dst.repr
    ensures dst.Valid() && dst.Tree() == Merge(old(dst.Tree()), old(src.Tree()))
    ensures old(dst.repr) <= dst.repr <= old(dst.repr) + src.repr
    decreases src.repr, 1
  {
    ghost var x, y, was := dst.Tree(), src.Tree(), dst.repr;
    var left := src.fields.Keys;
    assert Partial(x, y, left).fields == x.fields;
    while left != {}
      invariant Midway(dst, src, left, was, x, y) && src.repr == old(src.repr)
    {
      var k :| k in left;
      Turn(dst, src, k, left, was, x, y);
      left := left - {k};
    }
    assert Partial(x, y, {}).fields == Merge(x, y).fields;
  }
}
