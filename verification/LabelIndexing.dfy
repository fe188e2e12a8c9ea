/**
 The label loop of the data loader. It indexes a label at its second occurrence, in one pass, by
 going back to the row of the first occurrence. The reference is a two-pass filter that keeps the
 labels whose total count is at least two.
 */
module LabelIndexing {
  import opened Seqs
  import opened Dict

  datatype Feature = Feature(name: string, value: real)

  /** A feature with the row (user or item) that carries it, in stream order. */
  datatype Occurrence = Occurrence(row: nat, name: string, value: real)

  type Label = (nat, real)

  function RowOccurrences(u: nat, row: seq<Feature>, n: nat): (r: seq<Occurrence>)
    requires n <= |row|
    ensures |r| == n && forall x :: x in r ==> x.row == u
  {
    if n == 0 then [] else RowOccurrences(u, row, n - 1) + [Occurrence(u, row[n - 1].name, row[n - 1].value)]
  }

  function Occurrences(rows: seq<seq<Feature>>, n: nat): (r: seq<Occurrence>)
    requires n <= |rows|
    ensures forall x :: x in r ==> x.row < n
  {
    if n == 0 then [] else Occurrences(rows, n - 1) + RowOccurrences(n - 1, rows[n - 1], |rows[n - 1]|)
  }

  // ---------- the two-pass reference ----------

  function Count(all: seq<Occurrence>, name: string): nat {
    if all == [] then 0
    else Count(all[..|all| - 1], name) + if all[|all| - 1].name == name then 1 else 0
  }

  /** Position of the first occurrence of a name. */
  function First(all: seq<Occurrence>, name: string): (i: nat)
    requires Count(all, name) >= 1
    ensures i < |all| && all[i].name == name
  {
    var before := all[..|all| - 1];
    if Count(before, name) >= 1 then First(before, name) else |all| - 1
  }

  /** Position of the second occurrence of a name. */
  function Second(all: seq<Occurrence>, name: string): (i: nat)
    requires Count(all, name) >= 2
    ensures First(all, name) < i < |all| && all[i].name == name
  {
    var before := all[..|all| - 1];
    if Count(before, name) >= 2 then Second(before, name) else |all| - 1
  }

  /** The value the loader stores for position i: the first holder gets the second occurrence's value. */
  function Stored(all: seq<Occurrence>, i: nat): real
    requires i < |all| && Count(all, all[i].name) >= 2
  {
    if i == First(all, all[i].name) then all[Second(all, all[i].name)].value else all[i].value
  }

  /** The labels of row u among the first k occurrences that are frequent in `all`, as stored. */
  function StoredRow(all: seq<Occurrence>, k: nat, u: nat): seq<(string, real)>
    requires k <= |all|
  {
    if k == 0 then []
    else
      var before := StoredRow(all, k - 1, u);
      if Kept(all, k - 1, u) then before + [(all[k - 1].name, Stored(all, k - 1))] else before
  }

  /** The same labels with the values the row really carries. */
  function OwnRow(all: seq<Occurrence>, k: nat, u: nat): seq<(string, real)>
    requires k <= |all|
  {
    if k == 0 then []
    else
      var before := OwnRow(all, k - 1, u);
      if Kept(all, k - 1, u) then before + [(all[k - 1].name, all[k - 1].value)] else before
  }

  predicate Kept(all: seq<Occurrence>, i: nat, u: nat)
    requires i < |all|
  {
    all[i].row == u && Count(all, all[i].name) >= 2
  }

  /** The frequent names, in order of their second occurrence. */
  function Repeated(all: seq<Occurrence>): seq<string> {
    if all == [] then []
    else
      var before := all[..|all| - 1];
      var name := all[|all| - 1].name;
      if Count(before, name) == 1 then Repeated(before) + [name] else Repeated(before)
  }

  lemma Snoc(all: seq<Occurrence>, x: Occurrence, n: string)
    ensures Count(all + [x], n) == Count(all, n) + if x.name == n then 1 else 0
    ensures Count(all, n) >= 1 ==> First(all + [x], n) == First(all, n)
    ensures Count(all, n) >= 2 ==> Second(all + [x], n) == Second(all, n)
    ensures Count(all, n) == 0 && x.name == n ==> First(all + [x], n) == |all|
    ensures Count(all, n) == 1 && x.name == n ==> Second(all + [x], n) == |all|
    ensures Repeated(all + [x]) == if Count(all, x.name) == 1 then Repeated(all) + [x.name] else Repeated(all)
  {
    assert (all + [x])[..|all|] == all;
  }

  lemma {:induction false} CountMembers(all: seq<Occurrence>, i: nat)
    requires i < |all|
    ensures Count(all, all[i].name) >= 1
    ensures i != First(all, all[i].name) ==> Count(all, all[i].name) >= 2
  {
    if i < |all| - 1 {
      CountMembers(all[..|all| - 1], i);
    }
  }

  lemma {:induction false} RepeatedNames(all: seq<Occurrence>)
    ensures forall n :: n in Repeated(all) <==> Count(all, n) >= 2
    ensures Distinct(Repeated(all))
  {
    if all != [] {
      RepeatedNames(all[..|all| - 1]);
    }
  }

  /** Position i becomes a label of row u through the occurrence x, the second one of its name. */
  predicate Awakens(all: seq<Occurrence>, x: Occurrence, i: nat, u: nat)
    requires i < |all|
  {
    Count(all, x.name) == 1 && First(all, x.name) == i && all[i].row == u
  }

  /** The labels that earlier positions gain when x is the second occurrence of its name. */
  function Gain(all: seq<Occurrence>, x: Occurrence, k: nat, u: nat): multiset<(string, real)> {
    if Count(all, x.name) == 1 && First(all, x.name) < k && all[First(all, x.name)].row == u then multiset{(x.name, x.value)}
    else multiset{}
  }

  /** One more occurrence changes the labels of earlier positions only when it is a second one. */
  lemma {:induction false} StoredRowStep(all: seq<Occurrence>, x: Occurrence, k: nat, u: nat)
    requires k <= |all|
    ensures multiset(StoredRow(all + [x], k, u)) == multiset(StoredRow(all, k, u)) + Gain(all, x, k, u)
  {
    if k > 0 {
      var i := k - 1;
      StoredRowStep(all, x, i, u);
      StoredRowOne(all, x, i, u);
    }
  }

  lemma StoredRowOne(all: seq<Occurrence>, x: Occurrence, i: nat, u: nat)
    requires i < |all|
    requires multiset(StoredRow(all + [x], i, u)) == multiset(StoredRow(all, i, u)) + Gain(all, x, i, u)
    ensures multiset(StoredRow(all + [x], i + 1, u)) == multiset(StoredRow(all, i + 1, u)) + Gain(all, x, i + 1, u)
  {
    var now := all + [x];
    CountMembers(all, i);
    Snoc(all, x, all[i].name);
    if Awakens(all, x, i, u) {
      assert StoredRow(now, i + 1, u) == StoredRow(now, i, u) + [(x.name, x.value)];
    } else if Kept(all, i, u) {
      assert StoredRow(now, i + 1, u) == StoredRow(now, i, u) + [(all[i].name, Stored(all, i))];
    }
  }

  /** The labels of a row after one more occurrence. */
  lemma StoredRowSnoc(all: seq<Occurrence>, x: Occurrence, u: nat)
    ensures multiset(StoredRow(all + [x], |all| + 1, u)) == multiset(StoredRow(all, |all|, u))
      + (if Count(all, x.name) == 1 && all[First(all, x.name)].row == u then multiset{(x.name, x.value)} else multiset{})
      + (if Count(all, x.name) >= 1 && x.row == u then multiset{(x.name, x.value)} else multiset{})
  {
    StoredRowStep(all, x, |all|, u);
    Snoc(all, x, x.name);
    assert (all + [x])[|all|] == x;
    if Count(all, x.name) >= 1 {
      assert Stored(all + [x], |all|) == x.value;
    }
  }

  lemma {:induction false} StoredRowBeyond(all: seq<Occurrence>, k: nat, u: nat)
    requires k <= |all| && forall x :: x in all ==> x.row < u
    ensures StoredRow(all, k, u) == []
  {
    if k > 0 {
      StoredRowBeyond(all, k - 1, u);
    }
  }

  // ---------- the one-pass loop ----------

  predicate IdsBelow(row: seq<Label>, n: nat) {
    forall i :: 0 <= i < |row| ==> row[i].0 < n
  }

  function Names(row: seq<Label>, names: seq<string>): (r: seq<(string, real)>)
    requires IdsBelow(row, |names|)
    ensures |r| == |row| && forall i :: 0 <= i < |row| ==> r[i] == (names[row[i].0], row[i].1)
  {
    seq(|row|, i requires 0 <= i < |row| => (names[row[i].0], row[i].1))
  }

  /** The label rows hold exactly the reference bags of the occurrences seen so far. */
  ghost predicate Holds(labels: seq<seq<Label>>, names: seq<string>, all: seq<Occurrence>) {
    && (forall x :: x in all ==> x.row < |labels|)
    && (forall u :: 0 <= u < |labels| ==> RowHolds(labels[u], names, all, u))
  }

  ghost predicate CountedAt(count: map<string, nat>, first: map<string, nat>, all: seq<Occurrence>, n: string) {
    && (Count(all, n) == if n in count then count[n] else 0)
    && (Count(all, n) >= 1 ==> n in first && first[n] == all[First(all, n)].row)
  }

  /** The two maps of the loop: how often a name was seen, and the row of its first occurrence. */
  ghost predicate Counted(count: map<string, nat>, first: map<string, nat>, all: seq<Occurrence>) {
    forall n :: CountedAt(count, first, all, n)
  }

  /** What the loop knows after the occurrences `all`. */
  ghost predicate Loaded(names: seq<string>, count: map<string, nat>, first: map<string, nat>, labels: seq<seq<Label>>,
                         all: seq<Occurrence>)
  {
    names == Repeated(all) && Counted(count, first, all) && Holds(labels, names, all)
  }

  function Appended(labels: seq<seq<Label>>, u: nat, l: Label): seq<seq<Label>>
    requires u < |labels|
  {
    labels[u := labels[u] + [l]]
  }

  lemma NamesAppend(row: seq<Label>, names: seq<string>, l: Label)
    requires IdsBelow(row, |names|)
    requires l.0 < |names|
    ensures multiset(Names(row + [l], names)) == multiset(Names(row, names)) + multiset{(names[l.0], l.1)}
  {
    assert Names(row + [l], names) == Names(row, names) + [(names[l.0], l.1)];
  }

  lemma NamesGrow(row: seq<Label>, names: seq<string>, name: string)
    requires IdsBelow(row, |names|)
    ensures Names(row, names + [name]) == Names(row, names)
  {
  }

  ghost predicate RowHolds(row: seq<Label>, names: seq<string>, all: seq<Occurrence>, u: nat) {
    IdsBelow(row, |names|) && multiset(Names(row, names)) == multiset(StoredRow(all, |all|, u))
  }

  /** A new name joins the index, and its label joins a row for the first holder, for the new occurrence, or both. */
  lemma NamesSecond(row: seq<Label>, names: seq<string>, name: string, value: real, first: bool, own: bool)
    requires IdsBelow(row, |names|)
    ensures var l := (|names|, value);
            var one := if first then row + [l] else row;
            var two := if own then one + [l] else one;
            && IdsBelow(two, |names| + 1)
            && multiset(Names(two, names + [name])) == multiset(Names(row, names))
               + (if first then multiset{(name, value)} else multiset{}) + (if own then multiset{(name, value)} else multiset{})
  {
    var l := (|names|, value);
    var one := if first then row + [l] else row;
    NamesGrow(row, names, name);
    if first {
      NamesAppend(row, names + [name], l);
    }
    if own {
      NamesAppend(one, names + [name], l);
    }
  }

  lemma {:induction false} RowSecond(row: seq<Label>, names: seq<string>, all: seq<Occurrence>, x: Occurrence, u: nat)
    requires RowHolds(row, names, all, u) && Count(all, x.name) == 1
    ensures var l := (|names|, x.value);
            var one := if u == all[First(all, x.name)].row then row + [l] else row;
            RowHolds(if u == x.row then one + [l] else one, names + [x.name], all + [x], u)
  {
    StoredRowSnoc(all, x, u);
    NamesSecond(row, names, x.name, x.value, u == all[First(all, x.name)].row, u == x.row);
  }

  lemma RowLater(row: seq<Label>, names: seq<string>, all: seq<Occurrence>, x: Occurrence, id: nat, u: nat)
    requires RowHolds(row, names, all, u) && Count(all, x.name) >= 2 && id < |names| && names[id] == x.name
    ensures RowHolds(if u == x.row then row + [(id, x.value)] else row, names, all + [x], u)
  {
    StoredRowSnoc(all, x, u);
    NamesAppend(row, names, (id, x.value));
  }

  /** Later occurrences: the label goes to this row. */
  lemma HoldsLater(labels: seq<seq<Label>>, names: seq<string>, all: seq<Occurrence>, x: Occurrence, id: nat)
    requires Holds(labels, names, all) && x.row < |labels| && Count(all, x.name) >= 2
    requires id < |names| && names[id] == x.name
    ensures Holds(Appended(labels, x.row, (id, x.value)), names, all + [x])
  {
    var now := Appended(labels, x.row, (id, x.value));
    forall u | 0 <= u < |labels|
      ensures RowHolds(now[u], names, all + [x], u)
    {
      assert RowHolds(labels[u], names, all, u);
      RowLater(labels[u], names, all, x, id, u);
    }
  }

  lemma LoadedNewRow(names: seq<string>, count: map<string, nat>, first: map<string, nat>,
                                        labels: seq<seq<Label>>, all: seq<Occurrence>)
    requires Loaded(names, count, first, labels, all)
    ensures Loaded(names, count, first, labels + [[]], all)
  {
    StoredRowBeyond(all, |all|, |labels|);
    assert Names([], names) == [];
    assert RowHolds([], names, all, |labels|);
    forall u | 0 <= u < |labels|
      ensures RowHolds((labels + [[]])[u], names, all, u)
    {
      assert RowHolds(labels[u], names, all, u);
    }
  }

  lemma CountedStep(count: map<string, nat>, first: map<string, nat>, all: seq<Occurrence>, x: Occurrence)
    requires Counted(count, first, all)
    ensures Counted(count[x.name := Count(all, x.name) + 1],
                    if Count(all, x.name) == 0 then first[x.name := x.row] else first, all + [x])
  {
    var count' := count[x.name := Count(all, x.name) + 1];
    var first' := if Count(all, x.name) == 0 then first[x.name := x.row] else first;
    forall n: string
      ensures CountedAt(count', first', all + [x], n)
    {
      assert CountedAt(count, first, all, n);
      CountedAtStep(count, first, all, x, n);
    }
  }

  lemma CountedAtStep(count: map<string, nat>, first: map<string, nat>, all: seq<Occurrence>, x: Occurrence, n: string)
    requires CountedAt(count, first, all, n)
    ensures CountedAt(count[x.name := Count(all, x.name) + 1],
                      if Count(all, x.name) == 0 then first[x.name := x.row] else first, all + [x], n)
  {
    Snoc(all, x, n);
  }

  lemma LoadedFirst(names: seq<string>, count: map<string, nat>, first: map<string, nat>,
                                       labels: seq<seq<Label>>, all: seq<Occurrence>, x: Occurrence)
    requires Loaded(names, count, first, labels, all) && x.row < |labels|
    ensures Count(all, x.name) == if x.name in count then count[x.name] else 0
    ensures Count(all, x.name) == 0 ==> Loaded(names, count[x.name := 1], first[x.name := x.row], labels, all + [x])
  {
    assert CountedAt(count, first, all, x.name);
    if Count(all, x.name) == 0 {
      Snoc(all, x, x.name);
      CountedStep(count, first, all, x);
      forall u | 0 <= u < |labels|
        ensures RowHolds(labels[u], names, all + [x], u)
      {
        assert RowHolds(labels[u], names, all, u);
        StoredRowSnoc(all, x, u);
      }
    }
  }

  lemma LoadedSecond(names: seq<string>, count: map<string, nat>, first: map<string, nat>,
                                        labels: seq<seq<Label>>, all: seq<Occurrence>, x: Occurrence)
    requires Loaded(names, count, first, labels, all) && x.row < |labels|
    ensures Count(all, x.name) == 1 ==>
      x.name !in names && x.name in first && first[x.name] < |labels|
      && Loaded(names + [x.name], count[x.name := 2], first,
                Appended(Appended(labels, first[x.name], (|names|, x.value)), x.row, (|names|, x.value)), all + [x])
  {
    assert CountedAt(count, first, all, x.name);
    if Count(all, x.name) == 1 {
      Snoc(all, x, x.name);
      RepeatedNames(all);
      CountedStep(count, first, all, x);
      var f := all[First(all, x.name)].row;
      var l := (|names|, x.value);
      var two := Appended(Appended(labels, f, l), x.row, l);
      forall u | 0 <= u < |labels|
        ensures RowHolds(two[u], names + [x.name], all + [x], u)
      {
        assert RowHolds(labels[u], names, all, u);
        RowSecond(labels[u], names, all, x, u);
      }
    }
  }

  lemma {:induction false} LoadedLater(names: seq<string>, count: map<string, nat>, first: map<string, nat>,
                                       labels: seq<seq<Label>>, all: seq<Occurrence>, x: Occurrence)
    requires Loaded(names, count, first, labels, all) && x.row < |labels|
    ensures Count(all, x.name) >= 2 ==> x.name in names
    ensures forall id: nat :: Count(all, x.name) >= 2 && id < |names| && names[id] == x.name ==>
      Loaded(names, count[x.name := Count(all, x.name) + 1], first, Appended(labels, x.row, (id, x.value)), all + [x])
  {
    RepeatedNames(all);
    if Count(all, x.name) >= 2 {
      Snoc(all, x, x.name);
      CountedStep(count, first, all, x);
      forall id: nat | id < |names| && names[id] == x.name
        ensures Holds(Appended(labels, x.row, (id, x.value)), names, all + [x])
      {
        HoldsLater(labels, names, all, x, id);
      }
    }
  }

  /** One feature of the loop body. */
  method AddFeature(u: nat, f: Feature, count0: map<string, nat>, first0: map<string, nat>, labels0: seq<seq<Label>>,
                    index: Index<string>, ghost all: seq<Occurrence>)
    returns (count: map<string, nat>, first: map<string, nat>, labels: seq<seq<Label>>)
    requires u < |labels0| && index.Valid() && Loaded(index.names, count0, first0, labels0, all)
    modifies index
    ensures index.Valid() && |labels| == |labels0|
    ensures Loaded(index.names, count, first, labels, all + [Occurrence(u, f.name, f.value)])
  {
    count, first, labels := count0, first0, labels0;
    ghost var x := Occurrence(u, f.name, f.value);
    LoadedFirst(index.names, count0, first0, labels0, all, x);
    LoadedSecond(index.names, count0, first0, labels0, all, x);
    LoadedLater(index.names, count0, first0, labels0, all, x);
    count := count[f.name := (if f.name in count then count[f.name] else 0) + 1];
    if count[f.name] == 1 {
      first := first[f.name := u];
    }
    if count[f.name] == 2 {
      index.Add(f.name);
      labels := Appended(labels, first[f.name], (index.ToNumber(f.name), f.value));
    }
    if count[f.name] > 1 {
      labels := Appended(labels, u, (index.ToNumber(f.name), f.value));
    }
  }

  /**
   The whole loop. The index holds exactly the names that occur at least twice, each once; the row of
   every user holds exactly its frequent labels, with the value of the second occurrence at the first holder.
   */
  method LoadLabels(rows: seq<seq<Feature>>) returns (index: Index<string>, labels: seq<seq<Label>>)
    ensures fresh(index) && index.Valid() && index.names == Repeated(Occurrences(rows, |rows|)) && |labels| == |rows|
    ensures Holds(labels, index.names, Occurrences(rows, |rows|))
  {
    index := new Index<string>();
    var count: map<string, nat> := map[];
    var first: map<string, nat> := map[];
    labels := [];
    for u := 0 to |rows|
      invariant fresh(index) && index.Valid() && |labels| == u
      invariant Loaded(index.names, count, first, labels, Occurrences(rows, u))
    {
      LoadedNewRow(index.names, count, first, labels, Occurrences(rows, u));
      labels := labels + [[]];
      count, first, labels := LoadRow(u, rows[u], count, first, labels, index, Occurrences(rows, u));
    }
  }

  /** The inner loop over the features of one row. */
  method LoadRow(u: nat, row: seq<Feature>, count0: map<string, nat>, first0: map<string, nat>, labels0: seq<seq<Label>>,
                 index: Index<string>, ghost before: seq<Occurrence>)
    returns (count: map<string, nat>, first: map<string, nat>, labels: seq<seq<Label>>)
    requires u < |labels0| && index.Valid() && Loaded(index.names, count0, first0, labels0, before)
    modifies index
    ensures index.Valid() && |labels| == |labels0|
    ensures Loaded(index.names, count, first, labels, before + RowOccurrences(u, row, |row|))
  {
    count, first, labels := count0, first0, labels0;
    ghost var all := before;
    assert before + [] == before;
    for j := 0 to |row|
      invariant index.Valid() && |labels| == |labels0|
      invariant all == before + RowOccurrences(u, row, j) && Loaded(index.names, count, first, labels, all)
    {
      count, first, labels := AddFeature(u, row[j], count, first, labels, index, all);
      ConcatAssoc(before, RowOccurrences(u, row, j), [Occurrence(u, row[j].name, row[j].value)]);
      all := all + [Occurrence(u, row[j].name, row[j].value)];
    }
  }

  // ---------- when the values are the row's own ----------

  /** Every frequent name has the same value at its first two occurrences. */
  ghost predicate FirstTwoAgree(all: seq<Occurrence>) {
    forall n :: Count(all, n) >= 2 ==> all[First(all, n)].value == all[Second(all, n)].value
  }

  lemma {:induction false} AgreeingRows(all: seq<Occurrence>, k: nat, u: nat)
    requires k <= |all| && FirstTwoAgree(all)
    ensures StoredRow(all, k, u) == OwnRow(all, k, u)
  {
    if k > 0 {
      AgreeingRows(all, k - 1, u);
    }
  }

  /** A name whose first two values differ leaves one copy of the first value missing at its first holder. */
  lemma {:induction false} MissingCopy(all: seq<Occurrence>, k: nat, n: string, u: nat, v: real)
    requires k <= |all| && Count(all, n) >= 2
    requires v == all[First(all, n)].value != all[Second(all, n)].value && u == all[First(all, n)].row
    ensures multiset(StoredRow(all, k, u))[(n, v)] + (if First(all, n) < k then 1 else 0) == multiset(OwnRow(all, k, u))[(n, v)]
  {
    if k > 0 {
      MissingCopy(all, k - 1, n, u, v);
    }
  }

  /** The rows carry exactly their own frequent labels if and only if the first two values of each name agree. */
  lemma OwnValuesExactly(all: seq<Occurrence>)
    ensures FirstTwoAgree(all) <==> forall u :: multiset(StoredRow(all, |all|, u)) == multiset(OwnRow(all, |all|, u))
  {
    if FirstTwoAgree(all) {
      forall u: nat
        ensures multiset(StoredRow(all, |all|, u)) == multiset(OwnRow(all, |all|, u))
      {
        AgreeingRows(all, |all|, u);
      }
    } else {
      var n :| Count(all, n) >= 2 && all[First(all, n)].value != all[Second(all, n)].value;
      var first := all[First(all, n)];
      MissingCopy(all, |all|, n, first.row, first.value);
      assert multiset(StoredRow(all, |all|, first.row)) != multiset(OwnRow(all, |all|, first.row));
    }
  }

  /** For instance: of two rows with the same label and different values, the first one gets the second one's value. */
  lemma FirstHolderOverwritten(name: string, v: real, w: real)
    requires v != w
    ensures var all := [Occurrence(0, name, v), Occurrence(1, name, w)];
            && all == Occurrences([[Feature(name, v)], [Feature(name, w)]], 2)
            && StoredRow(all, 2, 0) == [(name, w)] && OwnRow(all, 2, 0) == [(name, v)] && !FirstTwoAgree(all)
  {
    var rows := [[Feature(name, v)], [Feature(name, w)]];
    var a, b := Occurrence(0, name, v), Occurrence(1, name, w);
    TwoOccurrences(rows, name, v, w);
    var all := [a, b];
    assert all[..1] == [a] && [a][..0] == [];
    assert Count([], name) == 0 && Count([a], name) == 1 && Count(all, name) == 2;
    assert First([a], name) == 0 && First(all, name) == 0 && Second(all, name) == 1;
    assert StoredRow(all, 1, 0) == [(name, w)] && OwnRow(all, 1, 0) == [(name, v)];
  }

  lemma TwoOccurrences(rows: seq<seq<Feature>>, name: string, v: real, w: real)
    requires rows == [[Feature(name, v)], [Feature(name, w)]]
    ensures Occurrences(rows, 2) == [Occurrence(0, name, v), Occurrence(1, name, w)]
  {
    assert RowOccurrences(0, rows[0], 0) == [] && RowOccurrences(1, rows[1], 0) == [];
    assert RowOccurrences(0, rows[0], 1) == [Occurrence(0, name, v)];
    assert RowOccurrences(1, rows[1], 1) == [Occurrence(1, name, w)];
    assert Occurrences(rows, 0) == [] && Occurrences(rows, 1) == [Occurrence(0, name, v)];
  }

  /** Names are always right: position by position the stored and the own labels differ in values only. */
  lemma {:induction false} NamesAlwaysRight(all: seq<Occurrence>, k: nat, u: nat)
    requires k <= |all|
    ensures |StoredRow(all, k, u)| == |OwnRow(all, k, u)|
    ensures forall i :: 0 <= i < |OwnRow(all, k, u)| ==> StoredRow(all, k, u)[i].0 == OwnRow(all, k, u)[i].0
  {
    if k > 0 {
      NamesAlwaysRight(all, k - 1, u);
    }
  }
}
