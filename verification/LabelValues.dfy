/**
 What loading and collecting a label tree mean for the values in it. A tree has a value at a path of field names
 if following the names leads to that string or to a list of strings that includes it.
 */
module LabelValues {
  import opened Seqs
  import opened Dict
  import opened LabelTree

  /** Following the field names leads to the string, or to a list of strings with it. */
  ghost predicate HasValue(tree: Label, path: seq<string>, v: string)
    decreases |path|
  {
    if path == [] then tree == Str(v) || (tree.Arr? && AllStrs(tree.elems) && Str(v) in tree.elems)
    else tree.Obj? && exists i :: 0 <= i < |tree.fields| && tree.fields[i].name == path[0] && HasValue(tree.fields[i].value, path[1..], v)
  }

  /** How often the tree has a value at a path; lists may repeat it. */
  ghost function Times(tree: Label, path: seq<string>, v: string): nat
    decreases tree, 1
  {
    match tree
    case Obj(fields) => if path == [] then 0 else FieldTimes(fields, path, v)
    case Arr(elems) => if path == [] && AllStrs(elems) then multiset(elems)[Str(v)] else 0
    case Str(s) => if path == [] && s == v then 1 else 0
    case Num(_) => 0
    case Other(_) => 0
  }

  ghost function FieldTimes(fields: seq<Field<Label>>, path: seq<string>, v: string): nat
    requires path != []
    decreases fields, 0
  {
    if fields == [] then 0
    else (if fields[0].name == path[0] then Times(fields[0].value, path[1..], v) else 0) + FieldTimes(fields[1..], path, v)
  }

  lemma {:induction false} TimesExactly(tree: Label, path: seq<string>, v: string)
    ensures HasValue(tree, path, v) <==> Times(tree, path, v) > 0
    decreases tree, 1
  {
    match tree
    case Obj(fields) =>
      if path != [] {
        FieldTimesExactly(fields, path, v);
      }
    case Arr(elems) =>
    case Str(s) =>
    case Num(_) =>
    case Other(_) =>
  }

  lemma {:induction false} FieldTimesExactly(fields: seq<Field<Label>>, path: seq<string>, v: string)
    requires path != []
    ensures FieldTimes(fields, path, v) > 0
            <==> exists i :: 0 <= i < |fields| && fields[i].name == path[0] && HasValue(fields[i].value, path[1..], v)
    decreases fields, 0
  {
    if fields != [] {
      TimesExactly(fields[0].value, path[1..], v);
      FieldTimesExactly(fields[1..], path, v);
      assert forall i :: 1 <= i < |fields| ==> fields[i] == fields[1..][i - 1];
      if i :| 0 <= i < |fields[1..]| && fields[1..][i].name == path[0] && HasValue(fields[1..][i].value, path[1..], v) {
        assert fields[i + 1] == fields[1..][i];
      }
    }
  }

  /** The leaves of a tree under a path are its values: each path and value as often as the tree has it. */
  lemma {:induction false} PathsCount(tree: Label, path: seq<string>, q: seq<string>, v: string)
    ensures multiset(Paths(tree, path))[(q, v)] == if path <= q then Times(tree, q[|path|..], v) else 0
    decreases tree, 1
  {
    match tree
    case Obj(fields) => FieldPathsCount(fields, path, q, v);
    case Arr(elems) =>
      if !AllNums(elems) && AllStrs(elems) {
        ElemPathsCount(elems, path, q, v);
      }
    case Str(s) => assert path <= q && q[|path|..] == [] <==> q == path;
    case Num(_) =>
    case Other(_) =>
  }

  lemma {:induction false} FieldPathsCount(fields: seq<Field<Label>>, path: seq<string>, q: seq<string>, v: string)
    ensures multiset(FieldPaths(fields, path))[(q, v)]
            == if path < q then FieldTimes(fields, q[|path|..], v) else 0
    decreases fields, 0
  {
    if fields != [] {
      var inner := path + [fields[0].name];
      PathsCount(fields[0].value, inner, q, v);
      FieldPathsCount(fields[1..], path, q, v);
      if path < q {
        assert q[|path|..][1..] == q[|inner|..];
        assert inner <= q <==> fields[0].name == q[|path|];
      }
    }
  }

  lemma {:induction false} ElemPathsCount(elems: seq<Label>, path: seq<string>, q: seq<string>, v: string)
    requires AllStrs(elems)
    ensures multiset(ElemPaths(elems, path))[(q, v)] == if q == path then multiset(elems)[Str(v)] else 0
  {
    if elems != [] {
      ElemPathsCount(elems[1..], path, q, v);
      assert elems == [elems[0]] + elems[1..];
    }
  }

  /** The leaves of a whole tree are exactly its values. */
  lemma LeavesAreValues(tree: Label, p: seq<string>, v: string)
    ensures (p, v) in LeafSet(tree) <==> HasValue(tree, p, v)
    ensures multiset(Paths(tree, []))[(p, v)] == Times(tree, p, v)
  {
    PathsCount(tree, [], p, v);
    assert p[0..] == p;
    TimesExactly(tree, p, v);
    assert (p, v) in Paths(tree, []) <==> (p, v) in multiset(Paths(tree, []));
  }

  /** A list of strings adds one key per element, in order, at the path of the list. */
  lemma ListKeys(elems: seq<Label>, parent: string)
    requires AllStrs(elems)
    ensures |Leaves(Arr(elems), parent)| == |elems|
    ensures forall i :: 0 <= i < |elems| ==> Leaves(Arr(elems), parent)[i] == parent + ":" + elems[i].s
  {
    ElemKeys(elems, parent);
    if elems != [] {
      assert elems[0].Str? && !AllNums(elems);
    }
    assert Leaves(Arr(elems), parent) == ElemLeaves(elems, parent);
  }

  lemma {:induction false} ElemKeys(elems: seq<Label>, parent: string)
    requires AllStrs(elems)
    ensures |ElemLeaves(elems, parent)| == |elems|
    ensures forall i :: 0 <= i < |elems| ==> ElemLeaves(elems, parent)[i] == parent + ":" + elems[i].s
  {
    if elems != [] {
      ElemKeys(elems[1..], parent);
    }
  }

  /** What is not a string or a list of strings is kept: the numbers of a list in order, field names in order, the rest as it is. */
  lemma RestKept(tree: Label, parent: string, names: seq<string>)
    requires Has(names, Leaves(tree, parent))
    ensures var p := Image(tree, parent, names);
            && (tree.Num? || tree.Other? || (tree.Arr? && !AllNums(tree.elems) && !AllStrs(tree.elems)) ==> p == Raw(tree))
            && (tree.Arr? && AllNums(tree.elems) ==>
                  p.Floats? && |p.xs| == |tree.elems| && forall i :: 0 <= i < |p.xs| ==> p.xs[i] == tree.elems[i].x)
            && (tree.Obj? ==>
                  p.Map? && |p.fields| == |tree.fields| && forall i :: 0 <= i < |p.fields| ==> p.fields[i].name == tree.fields[i].name)
  {
    if tree.Obj? {
      FieldsKept(tree.fields, parent, names);
    }
  }

  lemma {:induction false} FieldsKept(fields: seq<Field<Label>>, parent: string, names: seq<string>)
    requires Has(names, FieldLeaves(fields, parent))
    ensures var images := FieldImages(fields, parent, names);
            |images| == |fields| && forall i :: 0 <= i < |fields| ==> images[i].name == fields[i].name
  {
    if fields != [] {
      FieldsKept(fields[1..], parent, names);
    }
  }

  /** All field names on the way to a value are free of separators. */
  ghost predicate PlainValues(tree: Label) {
    forall p, v :: HasValue(tree, p, v) ==> forall n :: n in p ==> Plain(n)
  }

  /** The ids collected from a loaded tree are exactly those of its values. */
  lemma CollectedExactly(tree: Label, names: seq<string>, p: seq<string>, v: string)
    requires Has(names, Leaves(tree, "")) && PlainValues(tree) && forall n :: n in p ==> Plain(n)
    ensures Key(p, v) in names && IdOf(names, Key(p, v)) in LabelTree.Flatten(Image(tree, "", names)) <==> HasValue(tree, p, v)
  {
    FlattenOfImage(tree, "", names);
    IdSetOfLeaves(tree, names);
    LeavesAreValues(tree, p, v);
    if Key(p, v) in names && IdOf(names, Key(p, v)) in LeafIds(names, LeafSet(tree)) {
      var l :| l in LeafSet(tree) && LeafId(names, l) == IdOf(names, Key(p, v));
      LeavesAreValues(tree, l.0, l.1);
      LeafIdInjective(names, l, (p, v));
    }
    if HasValue(tree, p, v) {
      assert LeafId(names, (p, v)) in LeafIds(names, LeafSet(tree));
    }
  }

  lemma {:induction false} KeysCount(leaves: seq<(seq<string>, string)>, p: seq<string>, v: string)
    requires forall l, n :: l in leaves && n in l.0 ==> Plain(n)
    requires forall n :: n in p ==> Plain(n)
    ensures multiset(Keys(leaves))[Key(p, v)] == multiset(leaves)[(p, v)]
  {
    if leaves != [] {
      KeysCount(leaves[1..], p, v);
      KeysTellApart(leaves[0].0, leaves[0].1, p, v);
      assert leaves == [leaves[0]] + leaves[1..];
      assert leaves[0] == (leaves[0].0, leaves[0].1);
    }
  }

  /** Under plain field names a key is added once for each time the tree has its value. */
  lemma KeysOfValues(tree: Label, p: seq<string>, v: string)
    requires PlainValues(tree) && forall n :: n in p ==> Plain(n)
    ensures multiset(Leaves(tree, ""))[Key(p, v)] == Times(tree, p, v)
  {
    LeavesAreKeys(tree, []);
    LeavesAreValues(tree, p, v);
    forall l, n | l in Paths(tree, []) && n in l.0
      ensures Plain(n)
    {
      LeavesAreValues(tree, l.0, l.1);
    }
    KeysCount(Paths(tree, []), p, v);
  }

  /**
   Load a tree, then collect its ids. Under plain field names the id of a path and value is collected exactly if the tree has
   that value there, and the frequency of its key has risen by the number of times the tree has it.
   */
  method LoadAndCollect(values: FreqDict, tree: Label) returns (ids: set<nat>)
    requires values.Valid() && PlainValues(tree)
    modifies values
    ensures values.Valid() && old(values.names) <= values.names
    ensures forall p, v :: (forall n :: n in p ==> Plain(n)) ==>
      (Key(p, v) in values.names && IdOf(values.names, Key(p, v)) in ids <==> HasValue(tree, p, v))
    ensures forall p, v :: (forall n :: n in p ==> Plain(n)) ==>
      Freq(values.names, values.cnt, Key(p, v)) == Freq(old(values.names), old(values.cnt), Key(p, v)) + Times(tree, p, v)
  {
    ghost var names, cnt := values.names, values.cnt;
    AddAllGrows(values.names, Leaves(tree, ""));
    var loaded := ProcessLabels(values, tree, "");
    ids := LabelTree.Flatten(loaded);
    forall p, v | forall n :: n in p ==> Plain(n)
      ensures Key(p, v) in values.names && IdOf(values.names, Key(p, v)) in ids <==> HasValue(tree, p, v)
    {
      CollectedExactly(tree, values.names, p, v);
    }
    forall p, v | forall n :: n in p ==> Plain(n)
      ensures Freq(values.names, values.cnt, Key(p, v)) == Freq(names, cnt, Key(p, v)) + Times(tree, p, v)
    {
      KeysOfValues(tree, p, v);
    }
  }
}
