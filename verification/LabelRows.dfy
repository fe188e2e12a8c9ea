/**
 The label loop in terms of the rows it reads: which names are at two places, and which labels each row gets.
 */
module LabelRows {
  import opened Seqs
  import opened Dict
  import opened LabelIndexing

  /** Feature j of row u is there and has this name. */
  predicate NamedAt(rows: seq<seq<Feature>>, u: nat, j: nat, n: string) {
    u < |rows| && j < |rows[u]| && rows[u][j].name == n
  }

  /** A name at two different places. */
  ghost predicate Repeats(rows: seq<seq<Feature>>, n: string) {
    exists u: nat, j: nat, v: nat, k: nat :: NamedAt(rows, u, j, n) && NamedAt(rows, v, k, n) && (u != v || j != k)
  }

  lemma {:induction false} RowAt(u: nat, row: seq<Feature>, n: nat, j: nat)
    requires j < n <= |row|
    ensures RowOccurrences(u, row, n)[j] == Occurrence(u, row[j].name, row[j].value)
  {
    if j < n - 1 {
      RowAt(u, row, n - 1, j);
    }
  }

  lemma LastRow(rows: seq<seq<Feature>>, u: nat)
    requires u < |rows|
    ensures Occurrences(rows, u + 1) == Occurrences(rows, u) + RowOccurrences(u, rows[u], |rows[u]|)
    ensures |Occurrences(rows, u + 1)| == |Occurrences(rows, u)| + |rows[u]|
  {
  }

  lemma {:induction false} StreamGrows(rows: seq<seq<Feature>>, u: nat, m: nat)
    requires u <= m <= |rows|
    ensures Occurrences(rows, u) <= Occurrences(rows, m)
  {
    if u < m {
      StreamGrows(rows, u, m - 1);
      LastRow(rows, m - 1);
    }
  }

  /** The stream visits every feature of every row once, row by row and in order. */
  lemma OccurrenceAt(rows: seq<seq<Feature>>, m: nat, u: nat, j: nat)
    requires u < m <= |rows| && j < |rows[u]|
    ensures |Occurrences(rows, u)| + |rows[u]| <= |Occurrences(rows, m)|
    ensures Occurrences(rows, m)[|Occurrences(rows, u)| + j] == Occurrence(u, rows[u][j].name, rows[u][j].value)
  {
    LastRow(rows, u);
    RowAt(u, rows[u], |rows[u]|, j);
    StreamGrows(rows, u + 1, m);
  }

  /** And it visits nothing else. */
  lemma {:induction false} PlaceOf(rows: seq<seq<Feature>>, m: nat, i: nat) returns (u: nat, j: nat)
    requires m <= |rows| && i < |Occurrences(rows, m)|
    ensures u < m && j < |rows[u]| && i == |Occurrences(rows, u)| + j
  {
    if i < |Occurrences(rows, m - 1)| {
      u, j := PlaceOf(rows, m - 1, i);
    } else {
      u, j := m - 1, i - |Occurrences(rows, m - 1)|;
    }
  }

  lemma NameAt(rows: seq<seq<Feature>>, i: nat) returns (u: nat, j: nat)
    requires i < |Occurrences(rows, |rows|)|
    ensures NamedAt(rows, u, j, Occurrences(rows, |rows|)[i].name) && i == |Occurrences(rows, u)| + j
  {
    u, j := PlaceOf(rows, |rows|, i);
    OccurrenceAt(rows, |rows|, u, j);
  }

  lemma PositionOf(rows: seq<seq<Feature>>, u: nat, j: nat, n: string) returns (i: nat)
    requires NamedAt(rows, u, j, n)
    ensures i < |Occurrences(rows, |rows|)| && Occurrences(rows, |rows|)[i].name == n && i == |Occurrences(rows, u)| + j
  {
    OccurrenceAt(rows, |rows|, u, j);
    i := |Occurrences(rows, u)| + j;
  }

  lemma {:induction false} TwoPlaces(all: seq<Occurrence>, n: string, i: nat, j: nat)
    requires i < j < |all| && all[i].name == n && all[j].name == n
    ensures Count(all, n) >= 2
  {
    CountMembers(all, i);
    CountMembers(all, j);
  }

  lemma DifferentPlaces(rows: seq<seq<Feature>>, u: nat, j: nat, v: nat, k: nat)
    requires u < |rows| && j < |rows[u]| && v < |rows| && k < |rows[v]| && (u != v || j != k)
    ensures |Occurrences(rows, u)| + j != |Occurrences(rows, v)| + k
  {
    if u < v {
      OccurrenceAt(rows, v, u, j);
    } else if v < u {
      OccurrenceAt(rows, u, v, k);
    }
  }

  /** A name is counted twice exactly if it is at two places. */
  lemma RepeatsExactly(rows: seq<seq<Feature>>, n: string)
    ensures Count(Occurrences(rows, |rows|), n) >= 2 <==> Repeats(rows, n)
  {
    if Count(Occurrences(rows, |rows|), n) >= 2 {
      CountedRepeats(rows, n);
    }
    if Repeats(rows, n) {
      RepeatsCounted(rows, n);
    }
  }

  lemma CountedRepeats(rows: seq<seq<Feature>>, n: string)
    requires Count(Occurrences(rows, |rows|), n) >= 2
    ensures Repeats(rows, n)
  {
    var u, j := NameAt(rows, First(Occurrences(rows, |rows|), n));
    var v, k := NameAt(rows, Second(Occurrences(rows, |rows|), n));
  }

  lemma RepeatsCounted(rows: seq<seq<Feature>>, n: string)
    requires Repeats(rows, n)
    ensures Count(Occurrences(rows, |rows|), n) >= 2
  {
    var u: nat, j: nat, v: nat, k: nat :| NamedAt(rows, u, j, n) && NamedAt(rows, v, k, n) && (u != v || j != k);
    var a := PositionOf(rows, u, j, n);
    var b := PositionOf(rows, v, k, n);
    DifferentPlaces(rows, u, j, v, k);
    if a < b {
      TwoPlaces(Occurrences(rows, |rows|), n, a, b);
    } else {
      TwoPlaces(Occurrences(rows, |rows|), n, b, a);
    }
  }

  function Firsts(s: seq<(string, real)>): (r: seq<string>)
    ensures |r| == |s| && forall i :: 0 <= i < |s| ==> r[i] == s[i].0
  {
    seq(|s|, i requires 0 <= i < |s| => s[i].0)
  }

  function FeatureNames(row: seq<Feature>): (r: seq<string>)
    ensures |r| == |row| && forall i :: 0 <= i < |row| ==> r[i] == row[i].name
  {
    seq(|row|, i requires 0 <= i < |row| => row[i].name)
  }

  /** How often a row carries a name. */
  function InRow(all: seq<Occurrence>, u: nat, n: string): nat {
    if all == [] then 0
    else InRow(all[..|all| - 1], u, n) + if all[|all| - 1].row == u && all[|all| - 1].name == n then 1 else 0
  }

  lemma {:induction false} StoredNames(all: seq<Occurrence>, k: nat, u: nat, n: string)
    requires k <= |all|
    ensures multiset(Firsts(StoredRow(all, k, u)))[n] == if Count(all, n) >= 2 then InRow(all[..k], u, n) else 0
  {
    if k > 0 {
      StoredNames(all, k - 1, u, n);
      assert all[..k][..k - 1] == all[..k - 1];
      if Kept(all, k - 1, u) {
        FirstsSnoc(StoredRow(all, k - 1, u), (all[k - 1].name, Stored(all, k - 1)), n);
      }
    }
  }

  lemma FirstsSnoc(s: seq<(string, real)>, x: (string, real), n: string)
    ensures multiset(Firsts(s + [x]))[n] == multiset(Firsts(s))[n] + if x.0 == n then 1 else 0
  {
    assert Firsts(s + [x]) == Firsts(s) + [x.0];
  }

  lemma {:induction false} InRowConcat(a: seq<Occurrence>, b: seq<Occurrence>, u: nat, n: string)
    ensures InRow(a + b, u, n) == InRow(a, u, n) + InRow(b, u, n)
  {
    if b == [] {
      assert a + b == a;
    } else {
      assert (a + b)[..|a + b| - 1] == a + b[..|b| - 1];
      InRowConcat(a, b[..|b| - 1], u, n);
    }
  }

  lemma {:induction false} InRowOfOne(v: nat, row: seq<Feature>, m: nat, u: nat, n: string)
    requires m <= |row|
    ensures InRow(RowOccurrences(v, row, m), u, n) == if v == u then multiset(FeatureNames(row[..m]))[n] else 0
  {
    if m > 0 {
      InRowOfOne(v, row, m - 1, u, n);
      assert FeatureNames(row[..m]) == FeatureNames(row[..m - 1]) + [row[m - 1].name];
    }
  }

  lemma InRowLast(rows: seq<seq<Feature>>, m: nat, u: nat, n: string)
    requires m < |rows|
    ensures InRow(Occurrences(rows, m + 1), u, n)
            == InRow(Occurrences(rows, m), u, n) + if u == m then multiset(FeatureNames(rows[m]))[n] else 0
  {
    LastRow(rows, m);
    InRowConcat(Occurrences(rows, m), RowOccurrences(m, rows[m], |rows[m]|), u, n);
    InRowOfOne(m, rows[m], |rows[m]|, u, n);
    assert rows[m][..|rows[m]|] == rows[m];
  }

  lemma {:induction false} InRowOf(rows: seq<seq<Feature>>, m: nat, u: nat, n: string, own: nat)
    requires m <= |rows| && u < |rows| && own == multiset(FeatureNames(rows[u]))[n]
    ensures InRow(Occurrences(rows, m), u, n) == if u < m then own else 0
  {
    if m > 0 {
      InRowOf(rows, m - 1, u, n, own);
      InRowLast(rows, m - 1, u, n);
    }
  }

  lemma FirstsConcat(s: seq<(string, real)>, t: seq<(string, real)>)
    ensures Firsts(s + t) == Firsts(s) + Firsts(t)
  {
  }

  lemma {:induction false} FirstsOfBag(s: seq<(string, real)>, t: seq<(string, real)>)
    requires multiset(s) == multiset(t)
    ensures multiset(Firsts(s)) == multiset(Firsts(t))
  {
    if s == [] {
      EmptyBag(s, t);
    } else {
      var j := TakeOut(s, t);
      FirstsOfBag(s[1..], t[..j] + t[j + 1..]);
      FirstsConcat([s[0]], s[1..]);
      FirstsConcat(t[..j], [t[j]] + t[j + 1..]);
      FirstsConcat([t[j]], t[j + 1..]);
      FirstsConcat(t[..j], t[j + 1..]);
      assert s == [s[0]] + s[1..];
    }
  }

  /** The names of a row of labels. */
  function LabelNames(row: seq<Label>, names: seq<string>): seq<string>
    requires IdsBelow(row, |names|)
  {
    Firsts(Names(row, names))
  }

  /** The labels of row u have exactly the row's own names that occur twice somewhere, as often as the row has them. */
  ghost predicate LabelsRow(rows: seq<seq<Feature>>, names: seq<string>, row: seq<Label>, u: nat)
    requires u < |rows|
  {
    && IdsBelow(row, |names|)
    && (forall n :: multiset(LabelNames(row, names))[n] == if Repeats(rows, n) then multiset(FeatureNames(rows[u]))[n] else 0)
  }

  lemma RowLabelled(rows: seq<seq<Feature>>, names: seq<string>, row: seq<Label>, u: nat)
    requires u < |rows| && RowHolds(row, names, Occurrences(rows, |rows|), u)
    ensures LabelsRow(rows, names, row, u)
  {
    var all := Occurrences(rows, |rows|);
    FirstsOfBag(Names(row, names), StoredRow(all, |all|, u));
    assert all[..|all|] == all;
    forall n
      ensures multiset(Firsts(StoredRow(all, |all|, u)))[n] == if Repeats(rows, n) then multiset(FeatureNames(rows[u]))[n] else 0
    {
      StoredNames(all, |all|, u, n);
      InRowOf(rows, |rows|, u, n, multiset(FeatureNames(rows[u]))[n]);
      RepeatsExactly(rows, n);
    }
  }

  lemma IndexHolds(rows: seq<seq<Feature>>)
    ensures forall n :: n in Repeated(Occurrences(rows, |rows|)) <==> Repeats(rows, n)
  {
    RepeatedNames(Occurrences(rows, |rows|));
    forall n
      ensures n in Repeated(Occurrences(rows, |rows|)) <==> Repeats(rows, n)
    {
      RepeatsExactly(rows, n);
    }
  }

  /**
   The loop, in terms of the rows alone. A name is in the index exactly if it is at two places of the rows, and
   every row has as labels exactly its own names of that kind, as often as it carries them.
   */
  method LoadRows(rows: seq<seq<Feature>>) returns (index: Index<string>, labels: seq<seq<Label>>)
    ensures fresh(index) && index.Valid() && |labels| == |rows|
    ensures forall n :: n in index.names <==> Repeats(rows, n)
    ensures forall u :: 0 <= u < |rows| ==> LabelsRow(rows, index.names, labels[u], u)
  {
    index, labels := LoadLabels(rows);
    IndexHolds(rows);
    forall u | 0 <= u < |rows|
      ensures LabelsRow(rows, index.names, labels[u], u)
    {
      RowLabelled(rows, index.names, labels[u], u);
    }
  }
}
