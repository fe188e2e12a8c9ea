/**
 A recommendation as the record of a run: which recommenders were asked, what each of them answered with what
 excluded, where the run stopped, and how the answers make up the result.
 */
module RecommendChain {
  import opened Seqs
  import opened ScoreLists
  import opened Recommend

  /** The first recommenders answered with these lists, each with everything answered before it excluded. */
  ghost predicate IsRun(store: Store, exclude: set<string>, names: seq<string>, parts: seq<seq<Score>>) {
    |parts| <= |names| && forall i :: 0 <= i < |parts| ==> Answered(store, exclude, names, parts, i)
  }

  ghost predicate Answered(store: Store, exclude: set<string>, names: seq<string>, parts: seq<seq<Score>>, i: nat)
    requires i < |parts| <= |names|
  {
    Answers(store, names[i], exclude + Ids(Flatten(parts[..i])), Some(parts[i]))
  }

  /** What has been collected after some answers. */
  function Collected(start: seq<Score>, parts: seq<seq<Score>>): seq<Score> {
    start + Flatten(parts)
  }

  /** The limit is reached by the last answer and not before. */
  ghost predicate Reached(start: seq<Score>, parts: seq<seq<Score>>, limit: int) {
    limit > 0 && parts != [] && |Collected(start, parts)| >= limit && Below(start, parts[..|parts| - 1], limit)
  }

  /** No answer has reached the limit. */
  ghost predicate Below(start: seq<Score>, parts: seq<seq<Score>>, limit: int) {
    limit <= 0 || forall k :: 0 < k <= |parts| ==> |Collected(start, parts[..k])| < limit
  }

  /**
   What came of asking recommenders in turn: the answers reached the limit and were cut there, or all of them answered
   without reaching it.
   */
  ghost predicate Asked(store: Store, start: seq<Score>, exclude: set<string>, limit: int, names: seq<string>,
                        parts: seq<seq<Score>>, out: Outcome)
  {
    && IsRun(store, exclude, names, parts)
    && match out
       case Ran(result, seen) =>
         && seen == exclude + Ids(Flatten(parts))
         && if Reached(start, parts, limit) then result == Collected(start, parts)[..limit]
            else |parts| == |names| && Below(start, parts, limit) && result == Collected(start, parts)
       case Failed =>
         |parts| < |names| && Below(start, parts, limit) && Answers(store, names[|parts|], exclude + Ids(Flatten(parts)), None)
  }

  lemma FlattenFirst(scores: seq<Score>, more: seq<seq<Score>>)
    ensures Flatten([scores] + more) == scores + Flatten(more)
    ensures Ids(Flatten([scores] + more)) == Ids(scores) + Ids(Flatten(more))
  {
    assert ([scores] + more)[1..] == more;
  }

  lemma RunFirst(store: Store, exclude: set<string>, names: seq<string>, scores: seq<Score>, more: seq<seq<Score>>)
    requires names != [] && Answers(store, names[0], exclude, Some(scores))
    requires IsRun(store, exclude + Ids(scores), names[1..], more)
    ensures IsRun(store, exclude, names, [scores] + more)
  {
    var parts := [scores] + more;
    forall i | 0 <= i < |parts|
      ensures Answered(store, exclude, names, parts, i)
    {
      if i == 0 {
        assert parts[..0] == [] && exclude + Ids([]) == exclude;
      } else {
        assert Answered(store, exclude + Ids(scores), names[1..], more, i - 1);
        FlattenFirst(scores, more[..i - 1]);
        assert parts[..i] == [scores] + more[..i - 1];
        assert exclude + (Ids(scores) + Ids(Flatten(more[..i - 1]))) == (exclude + Ids(scores)) + Ids(Flatten(more[..i - 1]));
      }
    }
  }

  lemma CollectedFirst(start: seq<Score>, scores: seq<Score>, more: seq<seq<Score>>)
    ensures Collected(start, [scores] + more) == Collected(start + scores, more)
  {
    FlattenFirst(scores, more);
    ConcatAssoc(start, scores, Flatten(more));
  }

  lemma BelowFirst(start: seq<Score>, scores: seq<Score>, more: seq<seq<Score>>, limit: int)
    requires Below(start + scores, more, limit) && (limit <= 0 || |start + scores| < limit)
    ensures Below(start, [scores] + more, limit)
  {
    forall k | 0 < k <= |[scores] + more| && limit > 0
      ensures |Collected(start, ([scores] + more)[..k])| < limit
    {
      CollectedFirst(start, scores, more[..k - 1]);
      assert ([scores] + more)[..k] == [scores] + more[..k - 1];
      if k == 1 {
        assert Collected(start + scores, []) == start + scores;
      }
    }
  }

  /** The loop over the recommenders is such a run, whatever comes of it. */
  lemma {:induction false} SequentialIsRun(store: Store, start: seq<Score>, exclude: set<string>, limit: int, names: seq<string>)
    returns (parts: seq<seq<Score>>)
    ensures Asked(store, start, exclude, limit, names, parts, Sequential(store, start, exclude, limit, names))
    decreases |names|
  {
    if names == [] {
      parts := [];
      assert start + [] == start && exclude + Ids([]) == exclude;
    } else {
      PullAnswers(store, names[0], exclude);
      var pulled := Pull(store, names[0], exclude);
      if pulled.None? {
        parts := [];
        assert exclude + Ids([]) == exclude;
      } else {
        var scores := pulled.value;
        if limit > 0 && |start + scores| >= limit {
          parts := [scores];
          assert parts == [scores] + [] && parts[..0] == [];
          assert names[1..][..0] == [];
          RunFirst(store, exclude, names, scores, []);
          CollectedFirst(start, scores, []);
          FlattenFirst(scores, []);
          assert (start + scores) + [] == start + scores && Ids(scores) + Ids([]) == Ids(scores);
        } else {
          var more := SequentialIsRun(store, start + scores, exclude + Ids(scores), limit, names[1..]);
          parts := [scores] + more;
          AskedFirst(store, start, exclude, limit, names, scores, more, Sequential(store, start, exclude, limit, names));
        }
      }
    }
  }

  lemma AskedFirst(store: Store, start: seq<Score>, exclude: set<string>, limit: int, names: seq<string>,
                   scores: seq<Score>, more: seq<seq<Score>>, out: Outcome)
    requires names != [] && Answers(store, names[0], exclude, Some(scores)) && (limit <= 0 || |start + scores| < limit)
    requires Asked(store, start + scores, exclude + Ids(scores), limit, names[1..], more, out)
    ensures Asked(store, start, exclude, limit, names, [scores] + more, out)
  {
    var parts := [scores] + more;
    RunFirst(store, exclude, names, scores, more);
    CollectedFirst(start, scores, more);
    FlattenFirst(scores, more);
    assert exclude + Ids(Flatten(parts)) == (exclude + Ids(scores)) + Ids(Flatten(more));
    if Below(start + scores, more, limit) {
      BelowFirst(start, scores, more, limit);
      assert parts[..|parts|] == parts;
    }
    if Reached(start + scores, more, limit) {
      BelowFirst(start, scores, more[..|more| - 1], limit);
      assert parts[..|parts| - 1] == [scores] + more[..|more| - 1];
    }
  }

  /** The first stage: the rankers asked in turn up to the cache size, or the cached ranking without excluded items and repeats. */
  ghost predicate FirstList(store: Store, cfg: Config, exclude: set<string>, first: Outcome) {
    if cfg.rankerNone then exists parts :: Asked(store, [], exclude, cfg.cacheSize, cfg.rankers, parts, first)
    else if store.cached.None? then first == Failed
    else first.Ran? && KeepsFirst(store.cached.value, exclude, first.result) && first.exclude == exclude + Ids(first.result)
  }

  /** What follows the first stage: a cut at the limit, or the fallback recommenders asked in turn. */
  ghost predicate Continued(store: Store, cfg: Config, limit: int, first: Outcome, out: Outcome) {
    if first.Failed? then out == Failed
    else if limit > 0 && |first.result| >= limit then out == Ran(first.result[..limit], first.exclude)
    else exists parts :: Asked(store, first.result, first.exclude, limit, cfg.fallback, parts, out)
  }

  /** The whole recommendation, for any store, configuration, exclude set and limit. */
  lemma RecommendedIsRun(store: Store, cfg: Config, exclude: set<string>, limit: int) returns (first: Outcome)
    ensures FirstList(store, cfg, exclude, first)
    ensures Continued(store, cfg, limit, first, Recommended(store, cfg, exclude, limit))
  {
    first := FirstStage(store, cfg, exclude);
    if cfg.rankerNone {
      var parts := SequentialIsRun(store, [], exclude, cfg.cacheSize, cfg.rankers);
    } else if store.cached.Some? {
      FirstSeenExactly(store.cached.value, exclude);
    }
    if first.Ran? && !(limit > 0 && |first.result| >= limit) {
      var parts := SequentialIsRun(store, first.result, first.exclude, limit, cfg.fallback);
    }
  }
}
