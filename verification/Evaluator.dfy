/**
 The online evaluator: for each of the last days and each user the items read, and for each feedback
 type and user the items with positive feedback. Feedback arrives from parallel loaders in any order
 and may repeat.
 */
module Evaluator {
  import opened Seqs

  const WINDOW_SIZE: nat := 30

  datatype Feedback = Feedback(kind: string, value: real, user: nat, item: nat, day: int)

  /** Which feedback counts as read and as positive, and the last day of the window. */
  datatype Config = Config(isRead: (string, real) -> bool, isPositive: (string, real) -> bool, lastDay: int)

  type Sets = map<nat, set<nat>>

  datatype State = State(read: seq<Sets>, positive: map<string, Sets>)

  function Add(sets: Sets, user: nat, item: nat): Sets {
    sets[user := (if user in sets then sets[user] else {}) + {item}]
  }

  predicate InWindow(cfg: Config, f: Feedback) {
    0 <= cfg.lastDay - f.day < WINDOW_SIZE
  }

  predicate Reads(cfg: Config, f: Feedback) {
    cfg.isRead(f.kind, f.value) && InWindow(cfg, f)
  }

  /** Read feedback outside the window is skipped altogether, even when it is also positive. */
  predicate Praises(cfg: Config, f: Feedback) {
    cfg.isPositive(f.kind, f.value) && (cfg.isRead(f.kind, f.value) ==> InWindow(cfg, f))
  }

  // ---------- what the state means ----------

  ghost function ReadItems(cfg: Config, all: set<Feedback>, w: int, user: nat): set<nat> {
    set f | f in all && Reads(cfg, f) && cfg.lastDay - f.day == w && f.user == user :: f.item
  }

  /** Positive items of a kind; the empty kind stands for all of them. */
  ghost function PositiveItems(cfg: Config, all: set<Feedback>, kind: string, user: nat): set<nat> {
    set f | f in all && Praises(cfg, f) && (kind == "" || f.kind == kind) && f.user == user :: f.item
  }

  ghost predicate HasKind(cfg: Config, all: set<Feedback>, kind: string) {
    kind == "" || exists f :: f in all && Praises(cfg, f) && f.kind == kind
  }

  ghost predicate Exactly(sets: Sets, user: nat, items: set<nat>) {
    if user in sets then sets[user] == items && items != {} else items == {}
  }

  /** The state is determined by the set of feedback seen. */
  ghost predicate Means(s: State, cfg: Config, all: set<Feedback>) {
    && |s.read| == WINDOW_SIZE
    && (forall w, u :: 0 <= w < WINDOW_SIZE ==> Exactly(s.read[w], u, ReadItems(cfg, all, w, u)))
    && (forall k :: k in s.positive <==> HasKind(cfg, all, k))
    && (forall k, u :: k in s.positive ==> Exactly(s.positive[k], u, PositiveItems(cfg, all, k, u)))
  }

  /** Order and repetition do not matter: two evaluators that saw the same set of feedback are equal. */
  lemma OrderIndependent(s: State, t: State, cfg: Config, all: set<Feedback>)
    requires Means(s, cfg, all) && Means(t, cfg, all)
    ensures s == t
  {
    forall w | 0 <= w < WINDOW_SIZE
      ensures s.read[w] == t.read[w]
    {
      forall u: nat
        ensures u in s.read[w] <==> u in t.read[w]
        ensures u in s.read[w] ==> s.read[w][u] == t.read[w][u]
      {
        assert Exactly(s.read[w], u, ReadItems(cfg, all, w, u)) && Exactly(t.read[w], u, ReadItems(cfg, all, w, u));
      }
    }
    assert s.positive.Keys == t.positive.Keys;
    forall k | k in s.positive
      ensures s.positive[k] == t.positive[k]
    {
      forall u: nat
        ensures u in s.positive[k] <==> u in t.positive[k]
        ensures u in s.positive[k] ==> s.positive[k][u] == t.positive[k][u]
      {
        assert Exactly(s.positive[k], u, PositiveItems(cfg, all, k, u)) && Exactly(t.positive[k], u, PositiveItems(cfg, all, k, u));
      }
    }
  }

  predicate Holds(sets: Sets, user: nat, item: nat) {
    user in sets && item in sets[user]
  }

  class OnlineEvaluator {
    const cfg: Config
    var state: State
    ghost var all: set<Feedback>

    ghost predicate Valid()
      reads this
    {
      Means(state, cfg, all)
    }

    constructor (cfg: Config)
      ensures Valid() && this.cfg == cfg && all == {}
    {
      this.cfg := cfg;
      state := State(seq(WINDOW_SIZE, _ => map[]), map["" := map[]]);
      all := {};
    }

    method AddFeedback(f: Feedback)
      requires Valid()
      modifies this
      ensures Valid() && all == old(all) + {f}
      ensures cfg.isRead(f.kind, f.value) && !(0 <= cfg.lastDay - f.day < 30) ==> state == old(state)
      ensures !cfg.isRead(f.kind, f.value) && !cfg.isPositive(f.kind, f.value) ==> state == old(state)
    {
      if cfg.isRead(f.kind, f.value) {
        var w := cfg.lastDay - f.day;
        if w < 0 || w >= WINDOW_SIZE {
          ReadStep(state, cfg, all, f);
          PositiveStep(state, cfg, all, f);
          all := all + {f};
          return;
        }
        state := state.(read := state.read[w := Add(state.read[w], f.user, f.item)]);
      }
      if cfg.isPositive(f.kind, f.value) {
        var kinds := state.positive;
        kinds := kinds[f.kind := Add(if f.kind in kinds then kinds[f.kind] else map[], f.user, f.item)];
        kinds := kinds["" := Add(kinds[""], f.user, f.item)];
        state := state.(positive := kinds);
      }
      ReadStep(old(state), cfg, all, f);
      PositiveStep(old(state), cfg, all, f);
      all := all + {f};
    }
  }

  /** What is recorded, in terms of the feedback seen: no more and no less. */
  lemma StateExactly(s: State, cfg: Config, all: set<Feedback>, user: nat, item: nat)
    requires Means(s, cfg, all)
    ensures forall w :: 0 <= w < 30 ==>
      (Holds(s.read[w], user, item)
       <==> exists f :: f in all && cfg.isRead(f.kind, f.value) && cfg.lastDay - f.day == w && f.user == user && f.item == item)
    ensures forall k ::
      (k in s.positive && Holds(s.positive[k], user, item)
       <==> exists f :: f in all && cfg.isPositive(f.kind, f.value) && (cfg.isRead(f.kind, f.value) ==> 0 <= cfg.lastDay - f.day < 30)
                        && (k == "" || k == f.kind) && f.user == user && f.item == item)
  {
    forall w | 0 <= w < 30
      ensures Holds(s.read[w], user, item) <==> item in ReadItems(cfg, all, w, user)
    {
      assert Exactly(s.read[w], user, ReadItems(cfg, all, w, user));
    }
    forall k
      ensures k in s.positive && Holds(s.positive[k], user, item) <==> item in PositiveItems(cfg, all, k, user)
    {
      if k in s.positive {
        assert Exactly(s.positive[k], user, PositiveItems(cfg, all, k, user));
      } else {
        assert !HasKind(cfg, all, k);
      }
    }
  }

  lemma ReadStep(s: State, cfg: Config, all: set<Feedback>, f: Feedback)
    requires Means(s, cfg, all)
    ensures var w0 := cfg.lastDay - f.day;
            var read := if Reads(cfg, f) then s.read[w0 := Add(s.read[w0], f.user, f.item)] else s.read;
            forall w, u :: 0 <= w < WINDOW_SIZE ==> Exactly(read[w], u, ReadItems(cfg, all + {f}, w, u))
  {
    var w0 := cfg.lastDay - f.day;
    forall w, u | 0 <= w < WINDOW_SIZE
      ensures ReadItems(cfg, all + {f}, w, u)
              == ReadItems(cfg, all, w, u) + if Reads(cfg, f) && w == w0 && u == f.user then {f.item} else {}
    {
      assert Exactly(s.read[w], u, ReadItems(cfg, all, w, u));
    }
  }

  lemma PositiveStep(s: State, cfg: Config, all: set<Feedback>, f: Feedback)
    requires Means(s, cfg, all)
    ensures var one := s.positive[f.kind := Add(if f.kind in s.positive then s.positive[f.kind] else map[], f.user, f.item)];
            "" in one
    ensures var one := s.positive[f.kind := Add(if f.kind in s.positive then s.positive[f.kind] else map[], f.user, f.item)];
            var positive := if Praises(cfg, f) then one["" := Add(one[""], f.user, f.item)] else s.positive;
            && (forall k :: k in positive <==> HasKind(cfg, all + {f}, k))
            && (forall k, u :: k in positive ==> Exactly(positive[k], u, PositiveItems(cfg, all + {f}, k, u)))
  {
    assert HasKind(cfg, all, "");
    var one := s.positive[f.kind := Add(if f.kind in s.positive then s.positive[f.kind] else map[], f.user, f.item)];
    var positive := if Praises(cfg, f) then one["" := Add(one[""], f.user, f.item)] else s.positive;
    forall k: string
      ensures k in positive <==> HasKind(cfg, all + {f}, k)
    {
      if HasKind(cfg, all, k) && k != "" {
        var g :| g in all && Praises(cfg, g) && g.kind == k;
        assert g in all + {f};
      }
    }
    forall k, u | k in positive
      ensures Exactly(positive[k], u, PositiveItems(cfg, all + {f}, k, u))
    {
      if k in s.positive {
        assert Exactly(s.positive[k], u, PositiveItems(cfg, all, k, u));
      }
    }
  }

  // ---------- evaluation ----------

  /** The share of a user's read items that got positive feedback. */
  function Ratio(read: set<nat>, positive: set<nat>): (r: real)
    requires read != {}
    ensures 0.0 <= r <= 1.0
  {
    SubsetSize(read * positive, read);
    assert |read| > 0;
    (|read * positive| as real) / (|read| as real)
  }

  /** The share is 1 exactly if all read items are positive, and 0 exactly if none is. */
  lemma RatioExtremes(read: set<nat>, positive: set<nat>)
    requires read != {}
    ensures Ratio(read, positive) == 1.0 <==> read <= positive
    ensures Ratio(read, positive) == 0.0 <==> read !! positive
  {
    var both := read * positive;
    assert read == both + (read - both);
    assert |both| == |read| <==> read - both == {};
    assert |both| == 0 <==> both == {};
    assert Ratio(read, positive) * (|read| as real) == |both| as real;
  }

  /** Each further read item that is positive adds the same amount, one over the number of read items. */
  lemma RatioGrows(read: set<nat>, positive: set<nat>, x: nat)
    requires read != {}
    ensures x in read - positive ==> Ratio(read, positive + {x}) == Ratio(read, positive) + 1.0 / (|read| as real)
    ensures x !in read - positive ==> Ratio(read, positive + {x}) == Ratio(read, positive)
  {
    if x in read - positive {
      assert read * (positive + {x}) == read * positive + {x};
    } else {
      assert read * (positive + {x}) == read * positive;
    }
  }

  /** Users with reads that day who have a positive record of the kind. */
  function Raters(read: Sets, positive: Sets): (r: set<nat>)
    ensures forall u :: u in r <==> u in read && u in positive
  {
    set u | u in read && u in positive
  }

  ghost function RatioSum(read: Sets, positive: Sets, users: set<nat>): real
    requires users <= Raters(read, positive) && forall u :: u in read ==> read[u] != {}
  {
    if users == {} then 0.0
    else
      var u :| u in users;
      Ratio(read[u], positive[u]) + RatioSum(read, positive, users - {u})
  }

  /** The sum does not depend on the order in which users are visited. */
  lemma {:induction false} RatioSumPick(read: Sets, positive: Sets, users: set<nat>, x: nat)
    requires users <= Raters(read, positive) && (forall u :: u in read ==> read[u] != {}) && x in users
    ensures RatioSum(read, positive, users) == Ratio(read[x], positive[x]) + RatioSum(read, positive, users - {x})
    decreases users
  {
    var u :| u in users && RatioSum(read, positive, users) == Ratio(read[u], positive[u]) + RatioSum(read, positive, users - {u});
    if u != x {
      RatioSumPick(read, positive, users - {u}, x);
      RatioSumPick(read, positive, users - {x}, u);
      assert users - {u} - {x} == users - {x} - {u};
    }
  }

  /** One point: the average ratio over the raters of one kind and day. */
  method EvaluateDay(read: Sets, positive: Sets) returns (point: real, emitted: bool)
    requires forall u :: u in read ==> read[u] != {}
    ensures emitted <==> Raters(read, positive) != {}
    ensures emitted ==> 0.0 <= point <= 1.0
    ensures emitted ==> point == RatioSum(read, positive, Raters(read, positive)) / (|Raters(read, positive)| as real)
  {
    var sum, count := 0.0, 0;
    var todo := read.Keys;
    ghost var seen: set<nat> := {};
    while todo != {}
      invariant todo <= read.Keys && seen == (set u | u in read && u in positive && u !in todo)
      invariant seen <= Raters(read, positive) && count == |seen|
      invariant sum == RatioSum(read, positive, seen) && 0.0 <= sum <= count as real
      decreases todo
    {
      var u :| u in todo;
      todo := todo - {u};
      if u in positive && |read[u]| > 0 {
        sum := sum + Ratio(read[u], positive[u]);
        count := count + 1;
        ghost var before := seen;
        seen := seen + {u};
        RatioSumPick(read, positive, seen, u);
        assert seen - {u} == before;
      }
      assert u in read && read[u] != {};
    }
    assert seen == Raters(read, positive);
    emitted, point := count > 0, 0.0;
    if count > 0 {
      point := sum / (count as real);
    }
  }

  datatype Point = Point(kind: string, daysAgo: nat, value: real)

  /** The value is the average ratio over the raters of that kind and day, and lies in [0, 1]. */
  ghost predicate SoundPoint(s: State, p: Point) {
    && p.kind in s.positive && p.daysAgo < |s.read| && 0.0 <= p.value <= 1.0
    && (forall u :: u in s.read[p.daysAgo] ==> s.read[p.daysAgo][u] != {})
    && (var raters := Raters(s.read[p.daysAgo], s.positive[p.kind]);
        raters != {} && p.value == RatioSum(s.read[p.daysAgo], s.positive[p.kind], raters) / (|raters| as real))
  }

  ghost predicate SoundPoints(s: State, points: seq<Point>) {
    forall p :: p in points ==> SoundPoint(s, p)
  }

  /** No two points share kind and day. */
  ghost predicate OnePerDay(points: seq<Point>) {
    forall i, j :: 0 <= i < j < |points| ==> points[i].kind != points[j].kind || points[i].daysAgo != points[j].daysAgo
  }

  /** All points of an evaluator: at most one per kind and day, each an average of ratios. */
  method Evaluate(s: State, ghost cfg: Config, ghost all: set<Feedback>) returns (points: seq<Point>)
    requires Means(s, cfg, all)
    ensures SoundPoints(s, points) && OnePerDay(points)
    ensures forall k, w :: k in s.positive && 0 <= w < WINDOW_SIZE && Raters(s.read[w], s.positive[k]) != {} ==>
      exists p :: p in points && p.kind == k && p.daysAgo == w
  {
    forall w, u | 0 <= w < WINDOW_SIZE && u in s.read[w]
      ensures s.read[w][u] != {}
    {
      assert Exactly(s.read[w], u, ReadItems(cfg, all, w, u));
    }
    points := [];
    var kinds := s.positive.Keys;
    while kinds != {}
      invariant kinds <= s.positive.Keys && SoundPoints(s, points)
      invariant OnePerDay(points) && forall p :: p in points ==> p.kind !in kinds
      invariant forall k, w :: k in s.positive && k !in kinds && 0 <= w < WINDOW_SIZE ==> HasPoint(s, points, k, w)
      decreases kinds
    {
      var k :| k in kinds;
      for i := 0 to WINDOW_SIZE
        invariant SoundPoints(s, points) && OnePerDay(points)
        invariant forall p :: p in points ==> p.kind !in kinds || (p.kind == k && p.daysAgo < i)
        invariant forall j, w :: j in s.positive && j !in kinds && 0 <= w < WINDOW_SIZE ==> HasPoint(s, points, j, w)
        invariant forall w :: 0 <= w < i ==> HasPoint(s, points, k, w)
      {
        var value, emitted := EvaluateDay(s.read[i], s.positive[k]);
        if emitted {
          ghost var before := points;
          points := points + [Point(k, i, value)];
          assert forall p :: p in before ==> p in points;
          assert Point(k, i, value) in points;
          MorePoints(s, before, Point(k, i, value));
        }
      }
      kinds := kinds - {k};
    }
    forall k, w | k in s.positive && 0 <= w < WINDOW_SIZE && Raters(s.read[w], s.positive[k]) != {}
      ensures exists p :: p in points && p.kind == k && p.daysAgo == w
    {
      assert HasPoint(s, points, k, w);
    }
  }

  ghost predicate HasPoint(s: State, points: seq<Point>, k: string, w: nat)
    requires k in s.positive && w < |s.read|
  {
    Raters(s.read[w], s.positive[k]) != {} ==> exists p :: p in points && p.kind == k && p.daysAgo == w
  }

  lemma MorePoints(s: State, points: seq<Point>, p: Point)
    ensures forall k, w :: k in s.positive && 0 <= w < |s.read| && HasPoint(s, points, k, w) ==> HasPoint(s, points + [p], k, w)
  {
    assert forall q :: q in points ==> q in points + [p];
  }
}
