/**
 Labels of users and items are JSON trees. Loading replaces every string leaf by the id of its path
 and value in a frequency dictionary; similarity then collects the ids of a tree into a set. A Go map
 is a list of fields here, in whatever order the iteration visits them.
 */
module LabelTree {
  import opened Seqs
  import opened Dict

  datatype Field<T> = Field(name: string, value: T)

  datatype Label =
    | Obj(fields: seq<Field<Label>>)
    | Arr(elems: seq<Label>)
    | Str(s: string)
    | Num(x: real)
    | Other(tag: int)

  datatype Processed =
    | Map(fields: seq<Field<Processed>>)
    | Ids(ids: seq<nat>)
    | Floats(xs: seq<real>)
    | Id(id: nat)
    | Raw(tree: Label)

  predicate AllNums(elems: seq<Label>) {
    forall i :: 0 <= i < |elems| ==> elems[i].Num?
  }

  predicate AllStrs(elems: seq<Label>) {
    forall i :: 0 <= i < |elems| ==> elems[i].Str?
  }

  // ---------- the reference ----------

  /** The dictionary keys of the string leaves and of the elements of all-string lists, in order. */
  function Leaves(tree: Label, parent: string): seq<string>
    decreases tree, 1
  {
    match tree
    case Obj(fields) => FieldLeaves(fields, parent)
    case Arr(elems) => if AllNums(elems) then [] else if AllStrs(elems) then ElemLeaves(elems, parent) else []
    case Str(s) => [parent + ":" + s]
    case Num(_) => []
    case Other(_) => []
  }

  function FieldLeaves(fields: seq<Field<Label>>, parent: string): seq<string>
    decreases fields, 0
  {
    if fields == [] then []
    else Leaves(fields[0].value, parent + "." + fields[0].name) + FieldLeaves(fields[1..], parent)
  }

  function ElemLeaves(elems: seq<Label>, parent: string): seq<string>
    requires AllStrs(elems)
  {
    if elems == [] then [] else [parent + ":" + elems[0].s] + ElemLeaves(elems[1..], parent)
  }

  /** The position of a key in the dictionary's list of names. */
  ghost function IdOf(names: seq<string>, key: string): (id: nat)
    requires key in names
    ensures id < |names| && names[id] == key
  {
    if names[0] == key then 0 else IdOf(names[1..], key) + 1
  }

  ghost predicate Has(names: seq<string>, keys: seq<string>) {
    forall k :: k in keys ==> k in names
  }

  /** The tree with its keys replaced by their ids. */
  ghost function Image(tree: Label, parent: string, names: seq<string>): Processed
    requires Has(names, Leaves(tree, parent))
    decreases tree, 1
  {
    match tree
    case Obj(fields) => Map(FieldImages(fields, parent, names))
    case Arr(elems) =>
      if AllNums(elems) then Floats(seq(|elems|, i requires 0 <= i < |elems| => elems[i].x))
      else if AllStrs(elems) then Ids(KeyIds(ElemLeaves(elems, parent), names))
      else Raw(tree)
    case Str(s) => assert parent + ":" + s in Leaves(tree, parent); Id(IdOf(names, parent + ":" + s))
    case Num(_) => Raw(tree)
    case Other(_) => Raw(tree)
  }

  ghost function FieldImages(fields: seq<Field<Label>>, parent: string, names: seq<string>): seq<Field<Processed>>
    requires Has(names, FieldLeaves(fields, parent))
    decreases fields, 0
  {
    if fields == [] then []
    else [Field(fields[0].name, Image(fields[0].value, parent + "." + fields[0].name, names))] + FieldImages(fields[1..], parent, names)
  }

  ghost function KeyIds(keys: seq<string>, names: seq<string>): (ids: seq<nat>)
    requires Has(names, keys)
    ensures |ids| == |keys| && forall i :: 0 <= i < |keys| ==> keys[i] in names && ids[i] == IdOf(names, keys[i])
  {
    if keys == [] then [] else [IdOf(names, keys[0])] + KeyIds(keys[1..], names)
  }

  lemma {:induction false} AddAllConcat(names: seq<string>, a: seq<string>, b: seq<string>)
    ensures AddAll(names, a + b) == AddAll(AddAll(names, a), b)
    decreases |a|
  {
    if a == [] {
      assert a + b == b;
    } else {
      assert (a + b)[1..] == a[1..] + b;
      AddAllConcat(WithName(names, a[0]), a[1..], b);
    }
  }

  lemma {:induction false} AddAllGrows(names: seq<string>, keys: seq<string>)
    ensures names <= AddAll(names, keys) && Has(AddAll(names, keys), keys)
    ensures forall n :: n in AddAll(names, keys) ==> n in names || n in keys
    decreases |keys|
  {
    if keys != [] {
      var now := WithName(names, keys[0]);
      AddAllGrows(now, keys[1..]);
      assert keys == [keys[0]] + keys[1..];
      assert keys[0] in now && forall k :: k in now ==> k in AddAll(now, keys[1..]);
    }
  }

  // ---------- ids never change afterwards ----------

  lemma {:induction false} IdStable(names: seq<string>, more: seq<string>, key: string)
    requires names <= more && key in names
    ensures IdOf(more, key) == IdOf(names, key)
  {
    if names[0] != key {
      IdStable(names[1..], more[1..], key);
    }
  }

  lemma {:induction false} ImageStable(tree: Label, parent: string, names: seq<string>, more: seq<string>)
    requires names <= more && Has(names, Leaves(tree, parent))
    ensures Has(more, Leaves(tree, parent)) && Image(tree, parent, more) == Image(tree, parent, names)
    decreases tree, 1
  {
    match tree
    case Obj(fields) => FieldsStable(fields, parent, names, more);
    case Arr(elems) =>
      if !AllNums(elems) && AllStrs(elems) {
        var keys := ElemLeaves(elems, parent);
        forall i | 0 <= i < |keys|
          ensures keys[i] in more && IdOf(more, keys[i]) == IdOf(names, keys[i])
        {
          IdStable(names, more, keys[i]);
        }
      }
    case Str(s) =>
      assert parent + ":" + s in Leaves(tree, parent);
      IdStable(names, more, parent + ":" + s);
    case Num(_) =>
    case Other(_) =>
  }

  lemma {:induction false} FieldsStable(fields: seq<Field<Label>>, parent: string, names: seq<string>, more: seq<string>)
    requires names <= more && Has(names, FieldLeaves(fields, parent))
    ensures Has(more, FieldLeaves(fields, parent))
    ensures FieldImages(fields, parent, more) == FieldImages(fields, parent, names)
    decreases fields, 0
  {
    if fields != [] {
      ImageStable(fields[0].value, parent + "." + fields[0].name, names, more);
      FieldsStable(fields[1..], parent, names, more);
    }
  }

  // ---------- loading ----------

  /** How often a key was added. */
  ghost function Freq(names: seq<string>, cnt: seq<nat>, key: string): nat
    requires |cnt| == |names|
  {
    if key in names then cnt[IdOf(names, key)] else 0
  }

  /** The dictionary after adding `keys` to a dictionary with these names and counts. */
  ghost predicate Grown(names0: seq<string>, cnt0: seq<nat>, names: seq<string>, cnt: seq<nat>, keys: seq<string>) {
    && |cnt0| == |names0| && |cnt| == |names| && names == AddAll(names0, keys)
    && (forall k :: Freq(names, cnt, k) == Freq(names0, cnt0, k) + multiset(keys)[k])
  }

  lemma GrownConcat(n0: seq<string>, c0: seq<nat>, n1: seq<string>, c1: seq<nat>, n2: seq<string>,
                                       c2: seq<nat>, a: seq<string>, b: seq<string>)
    requires Grown(n0, c0, n1, c1, a) && Grown(n1, c1, n2, c2, b)
    ensures Grown(n0, c0, n2, c2, a + b)
  {
    AddAllConcat(n0, a, b);
  }

  method AddKey(values: FreqDict, key: string) returns (id: nat)
    requires values.Valid()
    modifies values
    ensures values.Valid() && Grown(old(values.names), old(values.cnt), values.names, values.cnt, [key])
    ensures key in values.names && id == IdOf(values.names, key)
  {
    ghost var names0, cnt0 := values.names, values.cnt;
    id := values.Add(key);
    assert id == IdOf(values.names, key);
    assert AddAll(names0, [key]) == WithName(names0, key) by {
      assert [key][1..] == [];
    }
    forall k: string
      ensures Freq(values.names, values.cnt, k) == Freq(names0, cnt0, k) + multiset([key])[k]
    {
      if k in names0 {
        IdStable(names0, values.names, k);
      }
    }
  }

  /** The recursive replacement: the dictionary gains exactly the tree's keys, and the result is the tree's image. */
  method ProcessLabels(values: FreqDict, tree: Label, parent: string) returns (p: Processed)
    requires values.Valid()
    modifies values
    ensures values.Valid() && Grown(old(values.names), old(values.cnt), values.names, values.cnt, Leaves(tree, parent))
    ensures Has(values.names, Leaves(tree, parent)) && p == Image(tree, parent, values.names)
    decreases tree, 1
  {
    AddAllGrows(values.names, Leaves(tree, parent));
    match tree {
      case Obj(fields) =>
        var o := ProcessFields(values, fields, parent);
        p := Map(o);
      case Arr(elems) =>
        if AllNums(elems) {
          p := Floats(seq(|elems|, i requires 0 <= i < |elems| => elems[i].x));
        } else if AllStrs(elems) {
          var ids := ProcessElems(values, elems, parent);
          p := Ids(ids);
        } else {
          p := Raw(tree);
        }
      case Str(s) =>
        var id := AddKey(values, parent + ":" + s);
        p := Id(id);
      case Num(_) => p := Raw(tree);
      case Other(_) => p := Raw(tree);
    }
  }

  method ProcessFields(values: FreqDict, fields: seq<Field<Label>>, parent: string) returns (o: seq<Field<Processed>>)
    requires values.Valid()
    modifies values
    ensures values.Valid() && Grown(old(values.names), old(values.cnt), values.names, values.cnt, FieldLeaves(fields, parent))
    ensures Has(values.names, FieldLeaves(fields, parent)) && o == FieldImages(fields, parent, values.names)
    decreases fields, 0
  {
    if |fields| == 0 {
      return [];
    }
    ghost var names0, cnt0 := values.names, values.cnt;
    var key := parent + "." + fields[0].name;
    var first := ProcessLabels(values, fields[0].value, key);
    ghost var names1, cnt1 := values.names, values.cnt;
    var rest := ProcessFields(values, fields[1..], parent);
    AddAllGrows(names1, FieldLeaves(fields[1..], parent));
    ImageStable(fields[0].value, key, names1, values.names);
    GrownConcat(names0, cnt0, names1, cnt1, values.names, values.cnt, Leaves(fields[0].value, key), FieldLeaves(fields[1..], parent));
    o := [Field(fields[0].name, first)] + rest;
  }

  method ProcessElems(values: FreqDict, elems: seq<Label>, parent: string) returns (ids: seq<nat>)
    requires values.Valid() && AllStrs(elems)
    modifies values
    ensures values.Valid() && Grown(old(values.names), old(values.cnt), values.names, values.cnt, ElemLeaves(elems, parent))
    ensures Has(values.names, ElemLeaves(elems, parent)) && ids == KeyIds(ElemLeaves(elems, parent), values.names)
    decreases elems
  {
    if |elems| == 0 {
      return [];
    }
    ghost var names0, cnt0 := values.names, values.cnt;
    var key := parent + ":" + elems[0].s;
    var first := AddKey(values, key);
    ghost var names1, cnt1 := values.names, values.cnt;
    var rest := ProcessElems(values, elems[1..], parent);
    AddAllGrows(names1, ElemLeaves(elems[1..], parent));
    IdStable(names1, values.names, key);
    GrownConcat(names0, cnt0, names1, cnt1, values.names, values.cnt, [key], ElemLeaves(elems[1..], parent));
    ids := [first] + rest;
  }

  // ---------- collecting ----------

  function Flatten(p: Processed): set<nat>
    decreases p, 1
  {
    match p
    case Id(id) => {id}
    case Ids(ids) => set i | i in ids
    case Map(fields) => FlattenFields(fields)
    case Floats(_) => {}
    case Raw(_) => {}
  }

  function FlattenFields(fields: seq<Field<Processed>>): set<nat>
    decreases fields, 0
  {
    if fields == [] then {} else Flatten(fields[0].value) + FlattenFields(fields[1..])
  }

  ghost function IdSet(keys: seq<string>, names: seq<string>): set<nat>
    requires Has(names, keys)
  {
    set i | i in KeyIds(keys, names)
  }

  lemma IdSetConcat(a: seq<string>, b: seq<string>, names: seq<string>)
    requires Has(names, a + b)
    ensures Has(names, a) && Has(names, b) && IdSet(a + b, names) == IdSet(a, names) + IdSet(b, names)
  {
    assert forall k :: k in a || k in b ==> k in a + b;
    assert KeyIds(a + b, names) == KeyIds(a, names) + KeyIds(b, names);
  }

  /** Collecting the ids of a loaded tree gives exactly the ids of its string leaves and all-string lists. */
  lemma {:induction false} FlattenOfImage(tree: Label, parent: string, names: seq<string>)
    requires Has(names, Leaves(tree, parent))
    ensures Flatten(Image(tree, parent, names)) == IdSet(Leaves(tree, parent), names)
    decreases tree, 1
  {
    match tree
    case Obj(fields) => FlattenOfFields(fields, parent, names);
    case Arr(elems) =>
    case Str(s) =>
      var key := parent + ":" + s;
      assert key in Leaves(tree, parent);
      assert KeyIds([key], names) == [IdOf(names, key)];
    case Num(_) =>
    case Other(_) =>
  }

  lemma {:induction false} FlattenOfFields(fields: seq<Field<Label>>, parent: string, names: seq<string>)
    requires Has(names, FieldLeaves(fields, parent))
    ensures FlattenFields(FieldImages(fields, parent, names)) == IdSet(FieldLeaves(fields, parent), names)
    decreases fields, 0
  {
    if fields != [] {
      var key := parent + "." + fields[0].name;
      IdSetConcat(Leaves(fields[0].value, key), FieldLeaves(fields[1..], parent), names);
      FlattenOfImage(fields[0].value, key, names);
      FlattenOfFields(fields[1..], parent, names);
      assert FieldImages(fields, parent, names)[1..] == FieldImages(fields[1..], parent, names);
    }
  }

  // ---------- when keys tell leaves apart ----------

  function Path(path: seq<string>): string {
    if path == [] then "" else "." + path[0] + Path(path[1..])
  }

  function Key(path: seq<string>, value: string): string {
    Path(path) + ":" + value
  }

  /** A field name that cannot be confused with the separators. */
  predicate Plain(name: string) {
    '.' !in name && ':' !in name
  }

  lemma {:induction false} PathHasNoColon(path: seq<string>)
    requires forall n :: n in path ==> Plain(n)
    ensures ':' !in Path(path)
  {
    if path != [] {
      assert path[0] in path;
      PathHasNoColon(path[1..]);
    }
  }

  /** If two texts with a ':' after a and after b agree, the longer of a and b contains a ':'. */
  lemma ColonInLonger(a: string, v: string, b: string, w: string)
    requires a + ":" + v == b + ":" + w
    ensures |a| < |b| ==> ':' in b
  {
    if |a| < |b| {
      assert (a + ":" + v)[|a|] == ':' && (b + ":" + w)[|a|] == b[|a|];
    }
  }

  /** If x is followed by nothing or by '.', a longer y in its place contains a '.'. */
  lemma DotInLonger(x: string, r: string, y: string, t: string)
    requires x + r == y + t && (r == "" || r[0] == '.')
    ensures |x| < |y| ==> '.' in y
  {
    if |x| < |y| {
      assert |x + r| == |y + t|;
      assert (x + r)[|x|] == r[0] && (y + t)[|x|] == y[|x|];
    }
  }

  lemma {:induction false} PathInjective(p: seq<string>, q: seq<string>)
    requires forall n :: n in p || n in q ==> Plain(n)
    requires Path(p) == Path(q)
    ensures p == q
    decreases |p|
  {
    if p != [] && q != [] {
      assert p[0] in p && q[0] in q;
      var r, t := Path(p[1..]), Path(q[1..]);
      assert Path(p)[1..] == p[0] + r && Path(q)[1..] == q[0] + t;
      DotInLonger(p[0], r, q[0], t);
      DotInLonger(q[0], t, p[0], r);
      assert p[0] == (p[0] + r)[..|p[0]|] == q[0];
      assert r == (p[0] + r)[|p[0]|..] == t;
      PathInjective(p[1..], q[1..]);
      assert p == [p[0]] + p[1..] && q == [q[0]] + q[1..];
    }
  }

  /** Without '.' and ':' in field names, keys identify path and value. */
  lemma KeysTellApart(p: seq<string>, v: string, q: seq<string>, w: string)
    requires forall n :: n in p || n in q ==> Plain(n)
    ensures Key(p, v) == Key(q, w) <==> p == q && v == w
  {
    if Key(p, v) == Key(q, w) {
      PathHasNoColon(p);
      PathHasNoColon(q);
      var a, b := Path(p), Path(q);
      var s := a + ":" + v;
      ColonInLonger(a, v, b, w);
      ColonInLonger(b, w, a, v);
      assert a == s[..|a|] && b == s[..|b|] && v == s[|a| + 1..] && w == s[|b| + 1..];
      PathInjective(p, q);
    }
  }

  lemma {:induction false} PathSnoc(path: seq<string>, n: string)
    ensures Path(path + [n]) == Path(path) + "." + n
  {
    if path == [] {
      assert path + [n] == [n] && [n][1..] == [];
    } else {
      assert (path + [n])[1..] == path[1..] + [n];
      PathSnoc(path[1..], n);
    }
  }

  lemma PathOfOne(n: string)
    ensures Path([n]) == "." + n
  {
    assert [n][1..] == [];
  }

  /** The leaves of a tree with their paths. */
  function Paths(tree: Label, path: seq<string>): seq<(seq<string>, string)>
    decreases tree, 1
  {
    match tree
    case Obj(fields) => FieldPaths(fields, path)
    case Arr(elems) => if AllNums(elems) then [] else if AllStrs(elems) then ElemPaths(elems, path) else []
    case Str(s) => [(path, s)]
    case Num(_) => []
    case Other(_) => []
  }

  function FieldPaths(fields: seq<Field<Label>>, path: seq<string>): seq<(seq<string>, string)>
    decreases fields, 0
  {
    if fields == [] then [] else Paths(fields[0].value, path + [fields[0].name]) + FieldPaths(fields[1..], path)
  }

  function ElemPaths(elems: seq<Label>, path: seq<string>): seq<(seq<string>, string)>
    requires AllStrs(elems)
  {
    if elems == [] then [] else [(path, elems[0].s)] + ElemPaths(elems[1..], path)
  }

  function Keys(leaves: seq<(seq<string>, string)>): (r: seq<string>)
    ensures |r| == |leaves| && forall i :: 0 <= i < |leaves| ==> r[i] == Key(leaves[i].0, leaves[i].1)
  {
    if leaves == [] then [] else [Key(leaves[0].0, leaves[0].1)] + Keys(leaves[1..])
  }

  /** Loading under the path prefix visits exactly the keys of the leaves, in order. */
  lemma {:induction false} LeavesAreKeys(tree: Label, path: seq<string>)
    ensures Leaves(tree, Path(path)) == Keys(Paths(tree, path))
    decreases tree, 1
  {
    match tree
    case Obj(fields) => FieldLeavesAreKeys(fields, path);
    case Arr(elems) =>
      if !AllNums(elems) && AllStrs(elems) {
        ElemLeavesAreKeys(elems, path);
      }
    case Str(s) => assert Paths(tree, path)[1..] == [];
    case Num(_) =>
    case Other(_) =>
  }

  lemma {:induction false} FieldLeavesAreKeys(fields: seq<Field<Label>>, path: seq<string>)
    ensures FieldLeaves(fields, Path(path)) == Keys(FieldPaths(fields, path))
    decreases fields, 0
  {
    if fields != [] {
      var inner := path + [fields[0].name];
      PathSnoc(path, fields[0].name);
      LeavesAreKeys(fields[0].value, inner);
      FieldLeavesAreKeys(fields[1..], path);
    }
  }

  lemma {:induction false} ElemLeavesAreKeys(elems: seq<Label>, path: seq<string>)
    requires AllStrs(elems)
    ensures ElemLeaves(elems, Path(path)) == Keys(ElemPaths(elems, path))
  {
    if elems != [] {
      ElemLeavesAreKeys(elems[1..], path);
      assert ElemPaths(elems, path)[1..] == ElemPaths(elems[1..], path);
    }
  }

  /**
   In two trees loaded into one dictionary (or twice the same tree), two leaves under plain field names carry
   the same id if and only if they have the same path and the same value.
   */
  lemma SameIdExactly(a: Label, b: Label, names: seq<string>, i: nat, j: nat)
    requires Has(names, Leaves(a, "")) && Has(names, Leaves(b, ""))
    requires i < |Paths(a, [])| && j < |Paths(b, [])|
    requires forall n :: n in Paths(a, [])[i].0 || n in Paths(b, [])[j].0 ==> Plain(n)
    ensures |KeyIds(Leaves(a, ""), names)| == |Paths(a, [])| && |KeyIds(Leaves(b, ""), names)| == |Paths(b, [])|
    ensures KeyIds(Leaves(a, ""), names)[i] == KeyIds(Leaves(b, ""), names)[j]
            <==> Paths(a, [])[i] == Paths(b, [])[j]
  {
    LeavesAreKeys(a, []);
    LeavesAreKeys(b, []);
    var (p, v) := Paths(a, [])[i];
    var (q, w) := Paths(b, [])[j];
    KeysTellApart(p, v, q, w);
    assert Leaves(a, "")[i] == Key(p, v) && Leaves(b, "")[j] == Key(q, w);
  }

  // ---------- what two items have in common ----------

  function LeafSet(tree: Label): set<(seq<string>, string)> {
    set l | l in Paths(tree, [])
  }

  ghost predicate PlainLeaves(tree: Label) {
    forall l :: l in LeafSet(tree) ==> forall n :: n in l.0 ==> Plain(n)
  }

  ghost function LeafId(names: seq<string>, l: (seq<string>, string)): nat
    requires Key(l.0, l.1) in names
  {
    IdOf(names, Key(l.0, l.1))
  }

  ghost predicate Known(names: seq<string>, leaves: set<(seq<string>, string)>) {
    forall l :: l in leaves ==> Key(l.0, l.1) in names
  }

  ghost function LeafIds(names: seq<string>, leaves: set<(seq<string>, string)>): set<nat>
    requires Known(names, leaves)
  {
    set l | l in leaves :: LeafId(names, l)
  }

  /** The ids of a loaded tree are the ids of its leaves. */
  lemma IdSetOfLeaves(tree: Label, names: seq<string>)
    requires Has(names, Leaves(tree, ""))
    ensures Known(names, LeafSet(tree)) && IdSet(Leaves(tree, ""), names) == LeafIds(names, LeafSet(tree))
  {
    var keys := Leaves(tree, "");
    LeavesAreKeys(tree, []);
    forall l | l in LeafSet(tree)
      ensures Key(l.0, l.1) in names && LeafId(names, l) in IdSet(keys, names)
    {
      var i :| 0 <= i < |Paths(tree, [])| && Paths(tree, [])[i] == l;
      assert keys[i] == Key(l.0, l.1) && keys[i] in keys;
      assert KeyIds(keys, names)[i] == IdOf(names, keys[i]);
    }
    forall id | id in IdSet(keys, names)
      ensures id in LeafIds(names, LeafSet(tree))
    {
      var i :| 0 <= i < |keys| && KeyIds(keys, names)[i] == id;
      var l := Paths(tree, [])[i];
      assert l in LeafSet(tree) && keys[i] == Key(l.0, l.1) && LeafId(names, l) == id;
    }
  }

  /** Ids tell plain leaves apart. */
  lemma LeafIdInjective(names: seq<string>, k: (seq<string>, string), l: (seq<string>, string))
    requires Key(k.0, k.1) in names && Key(l.0, l.1) in names
    requires forall n :: n in k.0 || n in l.0 ==> Plain(n)
    ensures LeafId(names, k) == LeafId(names, l) <==> k == l
  {
    KeysTellApart(k.0, k.1, l.0, l.1);
  }

  lemma {:induction false} LeafIdsCount(names: seq<string>, leaves: set<(seq<string>, string)>)
    requires Known(names, leaves) && forall l :: l in leaves ==> forall n :: n in l.0 ==> Plain(n)
    ensures |LeafIds(names, leaves)| == |leaves|
    decreases leaves
  {
    if leaves != {} {
      var l :| l in leaves;
      var rest := leaves - {l};
      LeafIdsCount(names, rest);
      forall k | k in rest
        ensures LeafId(names, k) != LeafId(names, l)
      {
        LeafIdInjective(names, k, l);
      }
      assert LeafIds(names, leaves) == LeafIds(names, rest) + {LeafId(names, l)};
    }
  }

  /**
   What similarity counts: of two trees loaded one after the other into one dictionary, with plain field names,
   the common ids of the flattened results are exactly the ids of the common leaves, and as many as there are
   common leaves.
   */
  lemma CommonIdsAreCommonLeaves(a: Label, b: Label, earlier: seq<string>, names: seq<string>)
    requires earlier <= names && Has(earlier, Leaves(a, "")) && Has(names, Leaves(b, ""))
    requires PlainLeaves(a) && PlainLeaves(b)
    ensures var common := Flatten(Image(a, "", earlier)) * Flatten(Image(b, "", names));
            && Known(names, LeafSet(a) * LeafSet(b))
            && common == LeafIds(names, LeafSet(a) * LeafSet(b)) && |common| == |LeafSet(a) * LeafSet(b)|
  {
    ImageStable(a, "", earlier, names);
    FlattenOfImage(a, "", names);
    FlattenOfImage(b, "", names);
    IdSetOfLeaves(a, names);
    IdSetOfLeaves(b, names);
    forall k, l | k in LeafSet(a) && l in LeafSet(b)
      ensures LeafId(names, k) == LeafId(names, l) <==> k == l
    {
      LeafIdInjective(names, k, l);
    }
    LeafIdsCount(names, LeafSet(a) * LeafSet(b));
  }

  // ---------- which field names are safe ----------

  /** A tree whose objects have distinct field names, all of them admissible. */
  predicate Over(tree: Label, ok: string -> bool)
    decreases tree, 1
  {
    match tree
    case Obj(fields) => FieldsOver(fields, ok) && forall i, j :: 0 <= i < j < |fields| ==> fields[i].name != fields[j].name
    case _ => true
  }

  predicate FieldsOver(fields: seq<Field<Label>>, ok: string -> bool)
    decreases fields, 0
  {
    fields == [] || (ok(fields[0].name) && Over(fields[0].value, ok) && FieldsOver(fields[1..], ok))
  }

  /** What remains of an admissible name when it is cut at a separator is admissible too. */
  ghost predicate CutClosed(ok: string -> bool) {
    forall x, y :: (ok(x + "." + y) || ok(x + ":" + y)) ==> ok(x) && ok(y)
  }

  /** Leaves with one id are the same leaf. */
  ghost predicate IdsTellApart(tree: Label, names: seq<string>)
    requires Has(names, Leaves(tree, ""))
  {
    forall i, j :: 0 <= i < |Paths(tree, [])| && 0 <= j < |Paths(tree, [])| && SameId(tree, names, i, j) ==>
      Paths(tree, [])[i] == Paths(tree, [])[j]
  }

  ghost predicate SameId(tree: Label, names: seq<string>, i: nat, j: nat)
    requires Has(names, Leaves(tree, "")) && i < |Paths(tree, [])| && j < |Paths(tree, [])|
  {
    LeafKey(tree, i);
    LeafKey(tree, j);
    KeyIds(Leaves(tree, ""), names)[i] == KeyIds(Leaves(tree, ""), names)[j]
  }

  lemma LeafKey(tree: Label, i: nat)
    requires i < |Paths(tree, [])|
    ensures |Leaves(tree, "")| == |Paths(tree, [])|
    ensures Leaves(tree, "")[i] == Key(Paths(tree, [])[i].0, Paths(tree, [])[i].1)
  {
    LeavesAreKeys(tree, []);
  }

  lemma {:induction false} PathsOver(tree: Label, path: seq<string>, ok: string -> bool, i: nat)
    requires Over(tree, ok) && (forall n :: n in path ==> ok(n)) && i < |Paths(tree, path)|
    ensures forall n :: n in Paths(tree, path)[i].0 ==> ok(n)
    decreases tree, 1
  {
    match tree
    case Obj(fields) => FieldPathsOver(fields, path, ok, i);
    case Arr(elems) => ElemPathsOver(elems, path, i);
    case _ =>
  }

  lemma {:induction false} FieldPathsOver(fields: seq<Field<Label>>, path: seq<string>, ok: string -> bool, i: nat)
    requires FieldsOver(fields, ok) && (forall n :: n in path ==> ok(n)) && i < |FieldPaths(fields, path)|
    ensures forall n :: n in FieldPaths(fields, path)[i].0 ==> ok(n)
    decreases fields, 0
  {
    var inner := path + [fields[0].name];
    var first := |Paths(fields[0].value, inner)|;
    if i < first {
      PathsOver(fields[0].value, inner, ok, i);
    } else {
      FieldPathsOver(fields[1..], path, ok, i - first);
    }
  }

  lemma {:induction false} ElemPathsOver(elems: seq<Label>, path: seq<string>, i: nat)
    requires AllStrs(elems) && i < |ElemPaths(elems, path)|
    ensures ElemPaths(elems, path)[i].0 == path
  {
    if i > 0 {
      ElemPathsOver(elems[1..], path, i - 1);
    }
  }

  /** An object with a field named x.y, and the same value under y in an object under x. */
  function DotTree(x: string, y: string, v: string): Label {
    Obj([Field(x + "." + y, Str(v)), Field(x, Obj([Field(y, Str(v))]))])
  }

  /** An object with a field named x:y, and under x the value y:v. */
  function ColonTree(x: string, y: string, v: string): Label {
    Obj([Field(x + ":" + y, Str(v)), Field(x, Str(y + ":" + v))])
  }

  lemma PathsOfOne(b: string, tree: Label, path: seq<string>)
    ensures Paths(Obj([Field(b, tree)]), path) == FieldPaths([Field(b, tree)], path) == Paths(tree, path + [b])
  {
    var fields := [Field(b, tree)];
    assert fields[1..] == [];
    assert FieldPaths([], path) == [];
    assert FieldPaths(fields, path) == Paths(tree, path + [b]) + [];
  }

  lemma PathsOfTwo(a: string, s: string, b: string, tree: Label)
    ensures Paths(Obj([Field(a, Str(s)), Field(b, tree)]), []) == [([a], s)] + Paths(tree, [b])
  {
    var fields := [Field(a, Str(s)), Field(b, tree)];
    assert fields[1..] == [Field(b, tree)];
    assert [] + [a] == [a] && [] + [b] == [b];
    PathsOfOne(b, tree, []);
    assert Paths(Obj(fields), []) == FieldPaths(fields, []);
    assert Paths(Str(s), [a]) == [([a], s)];
  }

  /** The two leaves of a DotTree differ in their paths and have one id. */
  lemma DotCollides(x: string, y: string, v: string, names: seq<string>)
    requires Has(names, Leaves(DotTree(x, y, v), ""))
    ensures Paths(DotTree(x, y, v), []) == [([x + "." + y], v), ([x, y], v)]
    ensures SameId(DotTree(x, y, v), names, 0, 1) && !IdsTellApart(DotTree(x, y, v), names)
  {
    PathsOfOne(y, Str(v), [x]);
    assert [x] + [y] == [x, y];
    PathsOfTwo(x + "." + y, v, x, Obj([Field(y, Str(v))]));
    LeafKey(DotTree(x, y, v), 0);
    LeafKey(DotTree(x, y, v), 1);
    PathOfOne(x + "." + y);
    PathOfOne(x);
    PathSnoc([x], y);
    assert Path([x, y]) == "." + x + "." + y == "." + (x + "." + y) == Path([x + "." + y]);
    assert |[x, y]| != |[x + "." + y]|;
  }

  /** The two leaves of a ColonTree differ in path and value and have one id. */
  lemma ColonCollides(x: string, y: string, v: string, names: seq<string>)
    requires Has(names, Leaves(ColonTree(x, y, v), ""))
    ensures Paths(ColonTree(x, y, v), []) == [([x + ":" + y], v), ([x], y + ":" + v)]
    ensures SameId(ColonTree(x, y, v), names, 0, 1) && !IdsTellApart(ColonTree(x, y, v), names)
  {
    PathsOfTwo(x + ":" + y, v, x, Str(y + ":" + v));
    LeafKey(ColonTree(x, y, v), 0);
    LeafKey(ColonTree(x, y, v), 1);
    PathOfOne(x + ":" + y);
    PathOfOne(x);
    assert ("." + (x + ":" + y)) + ":" + v == ("." + x) + ":" + (y + ":" + v);
    assert |v| != |y + ":" + v|;
  }

  lemma TwoFieldsOver(a: string, s: string, b: string, tree: Label, ok: string -> bool)
    requires ok(a) && ok(b) && a != b && Over(tree, ok)
    ensures Over(Obj([Field(a, Str(s)), Field(b, tree)]), ok)
  {
    var fields := [Field(a, Str(s)), Field(b, tree)];
    assert fields[1..] == [Field(b, tree)] && fields[1..][1..] == [];
    assert FieldsOver([], ok) && Over(Str(s), ok);
    assert FieldsOver(fields[1..], ok);
  }

  /** An admissible name with a separator makes a tree over admissible names in which two leaves share an id. */
  lemma BadNameCollides(ok: string -> bool, name: string) returns (tree: Label)
    requires CutClosed(ok) && ok(name) && !Plain(name)
    ensures Over(tree, ok) && forall names | Has(names, Leaves(tree, "")) :: !IdsTellApart(tree, names)
  {
    var i :| 0 <= i < |name| && (name[i] == '.' || name[i] == ':');
    var x, y := name[..i], name[i + 1..];
    if name[i] == '.' {
      assert name == x + "." + y;
      tree := DotTree(x, y, "");
      var inner := [Field(y, Str(""))];
      assert inner[1..] == [] && inner[0] == Field(y, Str(""));
      assert FieldsOver([], ok) && Over(Str(""), ok);
      assert FieldsOver(inner, ok);
      assert |inner| == 1;
      assert Over(Obj(inner), ok);
      TwoFieldsOver(x + "." + y, "", x, Obj(inner), ok);
      forall names | Has(names, Leaves(tree, "")) ensures !IdsTellApart(tree, names) {
        DotCollides(x, y, "", names);
      }
    } else {
      assert name == x + ":" + y;
      tree := ColonTree(x, y, "");
      TwoFieldsOver(x + ":" + y, "", x, Str(y + ":"), ok);
      assert y + ":" + "" == y + ":";
      forall names | Has(names, Leaves(tree, "")) ensures !IdsTellApart(tree, names) {
        ColonCollides(x, y, "", names);
      }
    }
  }

  /** Every tree over these field names, loaded into any dictionary, keeps different leaves apart. */
  ghost predicate TreesTellApart(ok: string -> bool) {
    forall tree, names :: Over(tree, ok) && Has(names, Leaves(tree, "")) ==> IdsTellApart(tree, names)
  }

  /**
   The exact condition on field names: for any admissible names that can be cut at separators, no tree
   has two different leaves with one id if and only if no admissible name contains '.' or ':'.
   */
  lemma SafeNamesExactly(ok: string -> bool)
    requires CutClosed(ok)
    ensures TreesTellApart(ok) <==> forall n :: ok(n) ==> Plain(n)
  {
    if forall n :: ok(n) ==> Plain(n) {
      forall tree, names | Over(tree, ok) && Has(names, Leaves(tree, ""))
        ensures IdsTellApart(tree, names)
      {
        forall i, j | 0 <= i < |Paths(tree, [])| && 0 <= j < |Paths(tree, [])| && SameId(tree, names, i, j)
          ensures Paths(tree, [])[i] == Paths(tree, [])[j]
        {
          PathsOver(tree, [], ok, i);
          PathsOver(tree, [], ok, j);
          SameIdExactly(tree, tree, names, i, j);
        }
      }
    } else {
      var name :| ok(name) && !Plain(name);
      var tree := BadNameCollides(ok, name);
      var names := Leaves(tree, "");
      assert Has(names, Leaves(tree, ""));
    }
  }
}
