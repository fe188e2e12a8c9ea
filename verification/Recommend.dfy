/**
 The recommendation pipeline of one user: a first stage (cached ranking or a list of recommenders),
 then fallback recommenders, stopping as soon as the limit is reached. Every recommender drops what
 is in the exclude set, and everything it returns is added to that set.
 */
module Recommend {
  import opened Seqs
  import opened ScoreLists

  /**
   What a recommender finds in the store. Latest, non-personalised, collaborative and external
   recommenders hold a list; item-to-item and user-to-user recommenders pool votes per item and rank
   the pool; a broken one returns an error.
   */
  datatype Source = Listed(entries: seq<Score>) | Pooled(votes: seq<Score>) | Broken

  /** The store as one request sees it; names without a source are unknown recommenders. */
  datatype Store = Store(
    sources: map<string, Source>,
    rank: map<string, real> -> seq<Score>,   // top-K selection, and the category filter after it
    cached: Option<seq<Score>>)

  datatype Config = Config(rankerNone: bool, cacheSize: int, rankers: seq<string>, fallback: seq<string>)

  /** Ranking returns pooled items only, each once. */
  ghost predicate FairRank(store: Store) {
    forall pool :: DistinctIds(store.rank(pool)) && Ids(store.rank(pool)) <= pool.Keys
  }

  function Pull(store: Store, name: string, exclude: set<string>): Option<seq<Score>> {
    if name !in store.sources then None
    else match store.sources[name]
      case Listed(entries) => Some(Unseen(entries, exclude))
      case Pooled(votes) => Some(store.rank(Pool(votes, exclude)))
      case Broken => None
  }

  /**
   What a recommender answers, in terms of what it finds in the store: the entries of its list that are not excluded, in
   order; the ranked sums of the votes per item that is not excluded; or an error.
   */
  ghost predicate Answers(store: Store, name: string, exclude: set<string>, scores: Option<seq<Score>>) {
    if name !in store.sources then scores == None
    else match store.sources[name]
      case Listed(entries) => scores.Some? && KeepsUnseen(entries, exclude, scores.value)
      case Pooled(votes) => exists pool :: SumsVotes(votes, exclude, pool) && scores == Some(store.rank(pool))
      case Broken => scores == None
  }

  lemma PullAnswers(store: Store, name: string, exclude: set<string>)
    ensures Answers(store, name, exclude, Pull(store, name, exclude))
  {
    if name in store.sources {
      match store.sources[name]
      case Listed(entries) => UnseenExactly(entries, exclude);
      case Pooled(votes) => PoolExactly(votes, exclude);
      case Broken =>
    }
  }

  datatype Outcome = Failed | Ran(result: seq<Score>, exclude: set<string>)

  function Sequential(store: Store, result: seq<Score>, exclude: set<string>, limit: int, names: seq<string>): Outcome
    decreases |names|
  {
    if names == [] then Ran(result, exclude)
    else
      var scores := Pull(store, names[0], exclude);
      if scores.None? then Failed
      else
        var more := result + scores.value;
        var seen := exclude + Ids(scores.value);
        if limit > 0 && |more| >= limit then Ran(more[..limit], seen)
        else Sequential(store, more, seen, limit, names[1..])
  }

  function FirstStage(store: Store, cfg: Config, exclude: set<string>): Outcome {
    if cfg.rankerNone then Sequential(store, [], exclude, cfg.cacheSize, cfg.rankers)
    else if store.cached.None? then Failed
    else
      var ranked := FirstSeen(store.cached.value, exclude);
      Ran(ranked, exclude + Ids(ranked))
  }

  function Recommended(store: Store, cfg: Config, exclude: set<string>, limit: int): Outcome {
    match FirstStage(store, cfg, exclude)
    case Failed => Failed
    case Ran(result, seen) =>
      if |result| >= limit && limit > 0 then Ran(result[..limit], seen)
      else Sequential(store, result, seen, limit, cfg.fallback)
  }

  // ---------- the recommender object ----------

  class Recommender {
    const store: Store
    const cfg: Config
    var excludeSet: set<string>

    /** The items the user has feedback on are excluded, unless replacement is on for online requests. */
    constructor (store: Store, cfg: Config, feedback: seq<string>, replacement: bool, online: bool)
      ensures this.store == store && this.cfg == cfg
      ensures excludeSet == if !replacement || !online then set x | x in feedback else {}
    {
      this.store := store;
      this.cfg := cfg;
      var exclude: set<string> := {};
      for i := 0 to |feedback|
        invariant exclude == if !replacement || !online then set x | x in feedback[..i] else {}
      {
        assert feedback[..i + 1] == feedback[..i] + [feedback[i]];
        if !replacement || !online {
          exclude := exclude + {feedback[i]};
        }
      }
      assert feedback[..|feedback|] == feedback;
      excludeSet := exclude;
    }

    method PullFrom(name: string) returns (scores: Option<seq<Score>>)
      ensures scores == Pull(store, name, excludeSet) && Answers(store, name, excludeSet, scores)
    {
      PullAnswers(store, name, excludeSet);
      if name !in store.sources {
        return None;
      }
      match store.sources[name] {
        case Listed(entries) =>
          var kept: seq<Score> := [];
          for i := 0 to |entries|
            invariant kept == Unseen(entries[..i], excludeSet)
          {
            assert entries[..i + 1][..i] == entries[..i];
            if entries[i].id !in excludeSet {
              kept := kept + [entries[i]];
            }
          }
          assert entries[..|entries|] == entries;
          scores := Some(kept);
        case Pooled(votes) =>
          var pool: map<string, real> := map[];
          for i := 0 to |votes|
            invariant pool == Pool(votes[..i], excludeSet)
          {
            assert votes[..i + 1][..i] == votes[..i];
            if votes[i].id !in excludeSet {
              var sum := if votes[i].id in pool then pool[votes[i].id] else 0.0;
              pool := pool[votes[i].id := sum + votes[i].score];
            }
          }
          assert votes[..|votes|] == votes;
          scores := Some(store.rank(pool));
        case Broken =>
          scores := None;
      }
    }

    method RecommendSequential(start: seq<Score>, limit: int, names: seq<string>) returns (ok: bool, result: seq<Score>)
      modifies this`excludeSet
      ensures ok <==> Sequential(store, start, old(excludeSet), limit, names).Ran?
      ensures ok ==> Ran(result, excludeSet) == Sequential(store, start, old(excludeSet), limit, names)
    {
      ok, result := true, start;
      for i := 0 to |names|
        invariant Sequential(store, result, excludeSet, limit, names[i..]) == Sequential(store, start, old(excludeSet), limit, names)
      {
        assert names[i..][1..] == names[i + 1..];
        var scores := PullFrom(names[i]);
        if scores.None? {
          return false, [];
        }
        ghost var before := excludeSet;
        for j := 0 to |scores.value|
          invariant excludeSet == before + Ids(scores.value[..j])
        {
          assert scores.value[..j + 1] == scores.value[..j] + [scores.value[j]];
          excludeSet := excludeSet + {scores.value[j].id};
        }
        assert scores.value[..|scores.value|] == scores.value;
        result := result + scores.value;
        if limit > 0 && |result| >= limit {
          return true, result[..limit];
        }
      }
      assert names[|names|..] == [];
    }

    method Recommend(limit: int) returns (ok: bool, result: seq<Score>)
      modifies this`excludeSet
      ensures ok <==> Recommended(store, cfg, old(excludeSet), limit).Ran?
      ensures ok ==> Ran(result, excludeSet) == Recommended(store, cfg, old(excludeSet), limit)
      ensures ok && !cfg.rankerNone ==> BeginsWithCached(store, old(excludeSet), limit, result)
    {
      CachedFirst(store, cfg, excludeSet, limit);
      result := [];
      if !cfg.rankerNone {
        if store.cached.None? {
          return false, [];
        }
        var scores := store.cached.value;
        ghost var before := excludeSet;
        for i := 0 to |scores|
          invariant result == FirstSeen(scores[..i], before)
          invariant excludeSet == before + Ids(result)
        {
          assert scores[..i + 1][..i] == scores[..i];
          if scores[i].id !in excludeSet {
            excludeSet := excludeSet + {scores[i].id};
            result := result + [scores[i]];
          }
        }
        assert scores[..|scores|] == scores;
      } else {
        ok, result := RecommendSequential(result, cfg.cacheSize, cfg.rankers);
        if !ok {
          return;
        }
      }
      if |result| >= limit && limit > 0 {
        return true, result[..limit];
      }
      ok, result := RecommendSequential(result, limit, cfg.fallback);
    }
  }

  // ---------- limits only cut ----------

  /** Later recommenders only append. */
  lemma {:induction false} SequentialAppends(store: Store, result: seq<Score>, exclude: set<string>, limit: int, names: seq<string>)
    requires limit <= 0 || |result| <= limit
    requires Sequential(store, result, exclude, limit, names).Ran?
    ensures result <= Sequential(store, result, exclude, limit, names).result
    decreases |names|
  {
    if names != [] {
      var scores := Pull(store, names[0], exclude).value;
      if !(limit > 0 && |result + scores| >= limit) {
        SequentialAppends(store, result + scores, exclude + Ids(scores), limit, names[1..]);
      }
    }
  }

  /** A result begins with the cached ranking without excluded items and repeats, as far as the limit lets it in. */
  ghost predicate BeginsWithCached(store: Store, exclude: set<string>, limit: int, result: seq<Score>) {
    && store.cached.Some?
    && exists first :: KeepsFirst(store.cached.value, exclude, first)
                       && if limit > 0 && |first| >= limit then result == first[..limit] else first <= result
  }

  lemma CachedFirst(store: Store, cfg: Config, exclude: set<string>, limit: int)
    ensures var out := Recommended(store, cfg, exclude, limit);
            out.Ran? && !cfg.rankerNone ==> BeginsWithCached(store, exclude, limit, out.result)
  {
    var out := Recommended(store, cfg, exclude, limit);
    if out.Ran? && !cfg.rankerNone {
      var first := FirstSeen(store.cached.value, exclude);
      FirstSeenExactly(store.cached.value, exclude);
      if !(limit > 0 && |first| >= limit) {
        SequentialAppends(store, first, exclude + Ids(first), limit, cfg.fallback);
      }
    }
  }

  /** The smaller limit stops earlier, with the same beginning. */
  lemma {:induction false} SequentialPrefix(store: Store, result: seq<Score>, exclude: set<string>, a: int, b: int, names: seq<string>)
    requires a > 0 && (b <= 0 || a <= b) && |result| < a
    requires Sequential(store, result, exclude, b, names).Ran?
    ensures Sequential(store, result, exclude, a, names).Ran?
    ensures Sequential(store, result, exclude, a, names).result == Take(Sequential(store, result, exclude, b, names).result, a)
    decreases |names|
  {
    if names != [] {
      var scores := Pull(store, names[0], exclude).value;
      var more := result + scores;
      if |more| < a {
        SequentialPrefix(store, more, exclude + Ids(scores), a, b, names[1..]);
      } else if b <= 0 || |more| < b {
        SequentialAppends(store, more, exclude + Ids(scores), b, names[1..]);
      }
    }
  }

  /**
   Early stopping is sound: a request with limit a gets exactly the first a entries of a request with
   a larger limit, or with none, whenever that request succeeds.
   */
  lemma LimitOnlyCuts(store: Store, cfg: Config, exclude: set<string>, a: int, b: int)
    requires a > 0 && (b <= 0 || a <= b)
    requires Recommended(store, cfg, exclude, b).Ran?
    ensures Recommended(store, cfg, exclude, a).Ran?
    ensures Recommended(store, cfg, exclude, a).result == Take(Recommended(store, cfg, exclude, b).result, a)
  {
    var first := FirstStage(store, cfg, exclude);
    if |first.result| < a {
      SequentialPrefix(store, first.result, first.exclude, a, b, cfg.fallback);
    } else if b <= 0 || |first.result| < b {
      SequentialAppends(store, first.result, first.exclude, b, cfg.fallback);
    }
  }

  // ---------- pages ----------

  /** What the REST endpoint answers: an error, a panic on a slice out of range, or a page. */
  datatype Served = Refused | Panicked | Shown(scores: seq<Score>)

  /** One page of the REST endpoint; every request starts from the same exclude set. */
  function Page(store: Store, cfg: Config, exclude: set<string>, n: int, offset: int): Served {
    match Recommended(store, cfg, exclude, n + offset)
    case Failed => Refused
    case Ran(scores, _) => From(scores, offset)
  }

  function From(scores: seq<Score>, offset: int): Served {
    if |scores| <= offset then Shown([]) else if offset < 0 then Panicked else Shown(scores[offset..])
  }

  function Slice(s: seq<Score>, from: nat, to: nat): seq<Score>
    requires from <= to
  {
    s[(if from < |s| then from else |s|)..(if to < |s| then to else |s|)]
  }

  /** All limits that are not positive mean no limit. */
  lemma {:induction false} SequentialNoLimit(store: Store, result: seq<Score>, exclude: set<string>, a: int, b: int, names: seq<string>)
    requires a <= 0 && b <= 0
    ensures Sequential(store, result, exclude, a, names) == Sequential(store, result, exclude, b, names)
    decreases |names|
  {
    if names != [] && Pull(store, names[0], exclude).Some? {
      var scores := Pull(store, names[0], exclude).value;
      SequentialNoLimit(store, result + scores, exclude + Ids(scores), a, b, names[1..]);
    }
  }

  /**
   A page is a slice of the list of any request that reaches as far, an unlimited one for instance. Without a
   positive n it is everything from the offset on if the sum with the offset is no limit either, and nothing
   if it is; a negative offset makes the endpoint panic.
   */
  lemma PageIsSlice(store: Store, cfg: Config, exclude: set<string>, n: int, offset: int, b: int)
    requires (b <= 0 || 0 < n + offset <= b) && Recommended(store, cfg, exclude, b).Ran?
    ensures var full := Recommended(store, cfg, exclude, b).result;
            Page(store, cfg, exclude, n, offset)
            == if offset < 0 then Panicked
               else if n > 0 then Shown(Slice(full, offset, offset + n))
               else if n + offset <= 0 then Shown(Slice(full, offset, offset + |full|))
               else Shown([])
  {
    CutIsSlice(Recommended(store, cfg, exclude, b).result, n, offset);
    if n + offset > 0 {
      LimitOnlyCuts(store, cfg, exclude, n + offset, b);
    } else {
      NoLimit(store, cfg, exclude, n + offset, b);
    }
  }

  lemma NoLimit(store: Store, cfg: Config, exclude: set<string>, a: int, b: int)
    requires a <= 0 && b <= 0
    ensures Recommended(store, cfg, exclude, a) == Recommended(store, cfg, exclude, b)
  {
    var first := FirstStage(store, cfg, exclude);
    if first.Ran? {
      SequentialNoLimit(store, first.result, first.exclude, a, b, cfg.fallback);
    }
  }

  lemma CutIsSlice(full: seq<Score>, n: int, offset: int)
    ensures From(if n + offset > 0 then Take(full, n + offset) else full, offset)
            == if offset < 0 then Panicked
               else if n > 0 then Shown(Slice(full, offset, offset + n))
               else if n + offset <= 0 then Shown(Slice(full, offset, offset + |full|))
               else Shown([])
  {
    if n > 0 && 0 <= offset < |full| {
      assert Take(full, n + offset)[offset..] == Slice(full, offset, offset + n);
    }
  }

  /** Where the k-th page of size n starts: k * n. */
  function Offset(n: nat, k: nat): nat {
    if k == 0 then 0 else Offset(n, k - 1) + n
  }

  /** The answers to the first requests for pages of size n. */
  function Requests(store: Store, cfg: Config, exclude: set<string>, n: nat, count: nat): (r: seq<Served>)
    ensures |r| == count && forall k {:trigger r[k]} :: 0 <= k < count ==> r[k] == Page(store, cfg, exclude, n, Offset(n, k))
  {
    if count == 0 then []
    else Requests(store, cfg, exclude, n, count - 1) + [Page(store, cfg, exclude, n, Offset(n, count - 1))]
  }

  /** What the first `count` of these answers show, one after the other. */
  function Joined(pages: seq<Served>, count: nat): seq<Score>
    requires count <= |pages|
  {
    if count == 0 then []
    else Joined(pages, count - 1) + if pages[count - 1].Shown? then pages[count - 1].scores else []
  }

  function Pages(store: Store, cfg: Config, exclude: set<string>, n: nat, count: nat): seq<Score> {
    Joined(Requests(store, cfg, exclude, n, count), count)
  }

  /** The list cut into `count` slices of size n. */
  function Slices(full: seq<Score>, n: nat, count: nat): (r: seq<seq<Score>>)
    ensures |r| == count && forall k {:trigger r[k]} :: 0 <= k < count ==> r[k] == Slice(full, Offset(n, k), Offset(n, k) + n)
  {
    if count == 0 then []
    else Slices(full, n, count - 1) + [Slice(full, Offset(n, count - 1), Offset(n, count - 1) + n)]
  }

  /** The first `count` parts, one after the other. */
  function Parts(parts: seq<seq<Score>>, count: nat): seq<Score>
    requires count <= |parts|
  {
    if count == 0 then [] else Parts(parts, count - 1) + parts[count - 1]
  }

  lemma {:induction false} SlicesTile(parts: seq<seq<Score>>, full: seq<Score>, n: nat, count: nat)
    requires count <= |parts| && forall k {:trigger parts[k]} :: 0 <= k < count ==> parts[k] == Slice(full, Offset(n, k), Offset(n, k) + n)
    ensures Parts(parts, count) == Take(full, Offset(n, count))
  {
    if count > 0 {
      SlicesTile(parts, full, n, count - 1);
    }
  }

  lemma {:induction false} OffsetGrows(n: nat, k: nat, count: nat)
    requires k < count
    ensures Offset(n, k) + n <= Offset(n, count)
  {
    if k < count - 1 {
      OffsetGrows(n, k, count - 1);
    }
  }

  lemma {:induction false} JoinedParts(pages: seq<Served>, parts: seq<seq<Score>>, count: nat)
    requires count <= |pages| && count <= |parts| && forall k :: 0 <= k < count ==> pages[k] == Shown(parts[k])
    ensures Joined(pages, count) == Parts(parts, count)
  {
    if count > 0 {
      JoinedParts(pages, parts, count - 1);
    }
  }

  lemma RequestIsSlice(store: Store, cfg: Config, exclude: set<string>, n: nat, count: nat, k: nat, b: int)
    requires n > 0 && (b <= 0 || Offset(n, count) <= b) && Recommended(store, cfg, exclude, b).Ran? && k < count
    ensures Requests(store, cfg, exclude, n, count)[k] == Shown(Slices(Recommended(store, cfg, exclude, b).result, n, count)[k])
  {
    OffsetGrows(n, k, count);
    PageIsSlice(store, cfg, exclude, n, Offset(n, k), b);
  }

  /** Consecutive pages tile the list of any request that reaches as far: nothing is skipped or shown again. */
  lemma {:induction false} PagesTile(store: Store, cfg: Config, exclude: set<string>, n: nat, count: nat, b: int)
    requires n > 0 && (b <= 0 || Offset(n, count) <= b) && Recommended(store, cfg, exclude, b).Ran?
    ensures Pages(store, cfg, exclude, n, count) == Take(Recommended(store, cfg, exclude, b).result, Offset(n, count))
  {
    var full := Recommended(store, cfg, exclude, b).result;
    forall k | 0 <= k < count
      ensures Requests(store, cfg, exclude, n, count)[k] == Shown(Slices(full, n, count)[k])
    {
      RequestIsSlice(store, cfg, exclude, n, count, k, b);
    }
    JoinedParts(Requests(store, cfg, exclude, n, count), Slices(full, n, count), count);
    SlicesTile(Slices(full, n, count), full, n, count);
  }

  // ---------- no repeats, nothing already read ----------

  lemma PullIsFresh(store: Store, name: string, exclude: set<string>)
    requires FairRank(store) && Pull(store, name, exclude).Some?
    ensures Ids(Pull(store, name, exclude).value) !! exclude
  {
    match store.sources[name] {
      case Listed(entries) => UnseenMembers(entries, exclude);
      case Pooled(votes) => PoolKeys(votes, exclude);
    }
  }

  /**
   Every list pulled on the way names each item once, as far as the limit lets it into the result;
   `count` entries are there before the first pull.
   */
  ghost predicate PullsDistinct(store: Store, exclude: set<string>, count: nat, limit: int, names: seq<string>)
    requires limit <= 0 || count < limit
    decreases |names|
  {
    names == [] || Pull(store, names[0], exclude).None?
    || (var scores := Pull(store, names[0], exclude).value;
        if limit > 0 && count + |scores| >= limit then DistinctIds(scores[..limit - count])
        else DistinctIds(scores) && PullsDistinct(store, exclude + Ids(scores), count + |scores|, limit, names[1..]))
  }

  lemma DistinctConcat(a: seq<Score>, b: seq<Score>)
    requires Ids(a) !! Ids(b)
    ensures DistinctIds(a + b) <==> DistinctIds(a) && DistinctIds(b)
  {
    if DistinctIds(a) && DistinctIds(b) {
      forall i, j | 0 <= i < j < |a + b|
        ensures (a + b)[i].id != (a + b)[j].id
      {
        if i < |a| <= j {
          assert a[i].id in Ids(a) && b[j - |a|].id in Ids(b);
        }
      }
    }
    if DistinctIds(a + b) {
      forall i, j | 0 <= i < j < |b|
        ensures b[i].id != b[j].id
      {
        assert (a + b)[|a| + i] == b[i] && (a + b)[|a| + j] == b[j];
      }
      forall i, j | 0 <= i < j < |a|
        ensures a[i].id != a[j].id
      {
        assert (a + b)[i] == a[i] && (a + b)[j] == a[j];
      }
    }
  }

  /** A list of fresh entries, cut at the limit, brings in a repeat exactly if what is left of it repeats itself. */
  lemma CutRepeats(result: seq<Score>, scores: seq<Score>, exclude: set<string>, n: nat)
    requires Ids(result) <= exclude && Ids(scores) !! exclude && |result| < n <= |result + scores|
    ensures DistinctIds((result + scores)[..n]) <==> DistinctIds(result) && DistinctIds(scores[..n - |result|])
  {
    var head := scores[..n - |result|];
    assert (result + scores)[..n] == result + head;
    assert forall x :: x in head ==> x in scores;
    DistinctConcat(result, head);
  }

  /** For any limit: repeats appear exactly if one recommender repeats itself within the limit. */
  lemma {:induction false} SequentialRepeats(store: Store, result: seq<Score>, exclude: set<string>, limit: int, names: seq<string>)
    requires FairRank(store) && Ids(result) <= exclude && (limit <= 0 || |result| < limit)
    requires Sequential(store, result, exclude, limit, names).Ran?
    ensures DistinctIds(Sequential(store, result, exclude, limit, names).result)
            <==> DistinctIds(result) && PullsDistinct(store, exclude, |result|, limit, names)
    decreases |names|
  {
    if names != [] {
      PullIsFresh(store, names[0], exclude);
      var scores := Pull(store, names[0], exclude).value;
      if limit > 0 && |result + scores| >= limit {
        CutRepeats(result, scores, exclude, limit);
      } else {
        DistinctConcat(result, scores);
        assert Ids(result + scores) == Ids(result) + Ids(scores);
        SequentialRepeats(store, result + scores, exclude + Ids(scores), limit, names[1..]);
      }
    }
  }

  /** With any limit: nothing excluded at the start is returned, and ids collected so far stay excluded. */
  lemma {:induction false} SequentialFresh(store: Store, result: seq<Score>, exclude: set<string>, banned: set<string>,
                                           limit: int, names: seq<string>)
    requires FairRank(store) && banned <= exclude && Ids(result) !! banned && Ids(result) <= exclude
    requires Sequential(store, result, exclude, limit, names).Ran?
    ensures var out := Sequential(store, result, exclude, limit, names);
            Ids(out.result) !! banned && Ids(out.result) <= out.exclude && banned <= out.exclude
    decreases |names|
  {
    if names != [] {
      PullIsFresh(store, names[0], exclude);
      var scores := Pull(store, names[0], exclude).value;
      assert Ids(result + scores) == Ids(result) + Ids(scores);
      if !(limit > 0 && |result + scores| >= limit) {
        SequentialFresh(store, result + scores, exclude + Ids(scores), banned, limit, names[1..]);
      }
    }
  }

  /** No result of any limit names an item of the initial exclude set: nothing already read comes back. */
  lemma NothingAlreadyRead(store: Store, cfg: Config, exclude: set<string>, limit: int)
    requires FairRank(store) && Recommended(store, cfg, exclude, limit).Ran?
    ensures Ids(Recommended(store, cfg, exclude, limit).result) !! exclude
  {
    var first := FirstStage(store, cfg, exclude);
    if cfg.rankerNone {
      SequentialFresh(store, [], exclude, exclude, cfg.cacheSize, cfg.rankers);
    } else {
      FirstSeenMembers(store.cached.value, exclude);
    }
    if !(|first.result| >= limit && limit > 0) {
      SequentialFresh(store, first.result, first.exclude, exclude, limit, cfg.fallback);
    }
  }

  /**
   What the first stage pulled but cut off at the cache size is lost: it was added to the exclude set
   before the cut, so no fallback recommender can bring it back, whatever the limit.
   */
  lemma CutOffIsLost(store: Store, cfg: Config, exclude: set<string>, limit: int)
    requires FairRank(store) && cfg.rankerNone && Recommended(store, cfg, exclude, limit).Ran?
    ensures var first := FirstStage(store, cfg, exclude);
            Ids(Recommended(store, cfg, exclude, limit).result) !! (first.exclude - Ids(first.result))
  {
    var first := FirstStage(store, cfg, exclude);
    SequentialFresh(store, [], exclude, exclude, cfg.cacheSize, cfg.rankers);
    if !(|first.result| >= limit && limit > 0) {
      SequentialFresh(store, first.result, first.exclude, first.exclude - Ids(first.result), limit, cfg.fallback);
    }
  }

  lemma {:induction false} SequentialWithin(store: Store, result: seq<Score>, exclude: set<string>, limit: int, names: seq<string>)
    requires limit > 0 && |result| < limit && Sequential(store, result, exclude, limit, names).Ran?
    ensures |Sequential(store, result, exclude, limit, names).result| <= limit
    decreases |names|
  {
    if names != [] {
      var scores := Pull(store, names[0], exclude).value;
      if |result + scores| < limit {
        SequentialWithin(store, result + scores, exclude + Ids(scores), limit, names[1..]);
      }
    }
  }

  /** The recommenders whose lists reach the result name each item once there; a cached ranking always does. */
  ghost predicate StagesDistinct(store: Store, cfg: Config, exclude: set<string>, limit: int)
    requires FirstStage(store, cfg, exclude).Ran?
  {
    var first := FirstStage(store, cfg, exclude);
    if limit > 0 && |first.result| >= limit then !cfg.rankerNone || PullsDistinct(store, exclude, 0, limit, cfg.rankers)
    else
      && (!cfg.rankerNone || PullsDistinct(store, exclude, 0, cfg.cacheSize, cfg.rankers))
      && PullsDistinct(store, first.exclude, |first.result|, limit, cfg.fallback)
  }

  lemma FirstStageRepeats(store: Store, cfg: Config, exclude: set<string>)
    requires FairRank(store) && FirstStage(store, cfg, exclude).Ran?
    ensures var first := FirstStage(store, cfg, exclude);
            && Ids(first.result) <= first.exclude
            && (DistinctIds(first.result) <==> !cfg.rankerNone || PullsDistinct(store, exclude, 0, cfg.cacheSize, cfg.rankers))
  {
    if cfg.rankerNone {
      SequentialRepeats(store, [], exclude, cfg.cacheSize, cfg.rankers);
      SequentialFresh(store, [], exclude, exclude, cfg.cacheSize, cfg.rankers);
    } else {
      FirstSeenMembers(store.cached.value, exclude);
    }
  }

  /** A limit that the first stage reaches is a limit on the first stage alone. */
  lemma FirstStageCut(store: Store, cfg: Config, exclude: set<string>, limit: int)
    requires FairRank(store) && cfg.rankerNone && FirstStage(store, cfg, exclude).Ran?
    requires 0 < limit <= |FirstStage(store, cfg, exclude).result|
    ensures DistinctIds(FirstStage(store, cfg, exclude).result[..limit]) <==> PullsDistinct(store, exclude, 0, limit, cfg.rankers)
  {
    if cfg.cacheSize > 0 {
      SequentialWithin(store, [], exclude, cfg.cacheSize, cfg.rankers);
    }
    SequentialPrefix(store, [], exclude, limit, cfg.cacheSize, cfg.rankers);
    SequentialRepeats(store, [], exclude, limit, cfg.rankers);
    var full := FirstStage(store, cfg, exclude).result;
    assert Take(full, limit) == full[..limit];
  }

  /** For both first stages and every limit: the result has no repeats exactly if no recommender repeats itself in it. */
  lemma NoRepeats(store: Store, cfg: Config, exclude: set<string>, limit: int)
    requires FairRank(store) && Recommended(store, cfg, exclude, limit).Ran?
    ensures DistinctIds(Recommended(store, cfg, exclude, limit).result) <==> StagesDistinct(store, cfg, exclude, limit)
  {
    var first := FirstStage(store, cfg, exclude);
    FirstStageRepeats(store, cfg, exclude);
    if !(|first.result| >= limit && limit > 0) {
      SequentialRepeats(store, first.result, first.exclude, limit, cfg.fallback);
    } else if cfg.rankerNone {
      FirstStageCut(store, cfg, exclude, limit);
    }
  }

  /** Consecutive pages never show an item twice exactly if no recommender repeats itself within them. */
  lemma PagesNeverRepeat(store: Store, cfg: Config, exclude: set<string>, n: nat, count: nat)
    requires FairRank(store) && n > 0 && count > 0 && Recommended(store, cfg, exclude, Offset(n, count)).Ran?
    ensures DistinctIds(Pages(store, cfg, exclude, n, count)) <==> StagesDistinct(store, cfg, exclude, Offset(n, count))
  {
    var limit := Offset(n, count);
    PagesTile(store, cfg, exclude, n, count, limit);
    LimitOnlyCuts(store, cfg, exclude, limit, limit);
    NoRepeats(store, cfg, exclude, limit);
  }

  /** For instance: an external list that names an item twice, behind an empty cached ranking. */
  lemma RepeatShows(store: Store, name: string, x: Score, limit: int)
    requires store.sources == map[name := Listed([x, x])] && store.cached == Some([]) && (limit <= 0 || limit >= 2)
    ensures var out := Recommended(store, Config(false, 0, [], [name]), {}, limit);
            out.Ran? && out.result == [x, x] && !DistinctIds(out.result)
  {
    assert FirstStage(store, Config(false, 0, [], [name]), {}) == Ran([], {}) by {
      assert Ids([]) == {};
    }
    UnseenTwice(x);
    var twice := [x, x];
    assert [] + twice == twice && [name][1..] == [] && {} + Ids(twice) == Ids(twice);
    assert Sequential(store, twice, Ids(twice), limit, []) == Ran(twice, Ids(twice));
    assert limit == |twice| ==> twice[..limit] == twice;
    assert twice[0].id == twice[1].id;
  }

  ghost predicate DistinctLists(store: Store) {
    forall n :: n in store.sources && store.sources[n].Listed? ==> DistinctIds(store.sources[n].entries)
  }

  /** Recommenders whose stored lists are free of repeats never repeat themselves. */
  lemma {:induction false} DistinctPulls(store: Store, exclude: set<string>, count: nat, limit: int, names: seq<string>)
    requires FairRank(store) && DistinctLists(store) && (limit <= 0 || count < limit)
    ensures PullsDistinct(store, exclude, count, limit, names)
    decreases |names|
  {
    if names != [] && Pull(store, names[0], exclude).Some? {
      var scores := Pull(store, names[0], exclude).value;
      if store.sources[names[0]].Listed? {
        UnseenMembers(store.sources[names[0]].entries, exclude);
      }
      assert DistinctIds(scores);
      if !(limit > 0 && count + |scores| >= limit) {
        DistinctPulls(store, exclude + Ids(scores), count + |scores|, limit, names[1..]);
      }
    }
  }

  /** Over stored lists without repeats, no request and no sequence of pages shows an item twice. */
  lemma DistinctSources(store: Store, cfg: Config, exclude: set<string>, limit: int)
    requires FairRank(store) && DistinctLists(store) && Recommended(store, cfg, exclude, limit).Ran?
    ensures DistinctIds(Recommended(store, cfg, exclude, limit).result)
    ensures forall n: nat, count: nat :: n > 0 && count > 0 && Offset(n, count) == limit ==>
      DistinctIds(Pages(store, cfg, exclude, n, count))
  {
    var first := FirstStage(store, cfg, exclude);
    if limit > 0 && |first.result| >= limit {
      DistinctPulls(store, exclude, 0, limit, cfg.rankers);
    } else {
      DistinctPulls(store, exclude, 0, cfg.cacheSize, cfg.rankers);
      DistinctPulls(store, first.exclude, |first.result|, limit, cfg.fallback);
    }
    NoRepeats(store, cfg, exclude, limit);
    forall n: nat, count: nat | n > 0 && count > 0 && Offset(n, count) == limit
      ensures DistinctIds(Pages(store, cfg, exclude, n, count))
    {
      PagesNeverRepeat(store, cfg, exclude, n, count);
    }
  }
}
