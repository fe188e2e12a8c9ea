/** Score lists and what a recommender makes of them: unseen entries, first entries per item, pooled votes. */
module ScoreLists {
  import opened Seqs

  datatype Score = Score(id: string, score: real)

  function Ids(scores: seq<Score>): (s: set<string>) {
    set x | x in scores :: x.id
  }

  ghost predicate DistinctIds(scores: seq<Score>) {
    forall i, j :: 0 <= i < j < |scores| ==> scores[i].id != scores[j].id
  }

  function Unseen(scores: seq<Score>, exclude: set<string>): seq<Score> {
    if scores == [] then []
    else
      var before := Unseen(scores[..|scores| - 1], exclude);
      if scores[|scores| - 1].id in exclude then before else before + [scores[|scores| - 1]]
  }

  function Pool(votes: seq<Score>, exclude: set<string>): map<string, real> {
    if votes == [] then map[]
    else
      var before := Pool(votes[..|votes| - 1], exclude);
      var v := votes[|votes| - 1];
      if v.id in exclude then before
      else before[v.id := (if v.id in before then before[v.id] else 0.0) + v.score]
  }

  /** Unseen cached entries, each id once. */
  function FirstSeen(scores: seq<Score>, exclude: set<string>): seq<Score> {
    if scores == [] then []
    else
      var before := FirstSeen(scores[..|scores| - 1], exclude);
      var x := scores[|scores| - 1];
      if x.id in exclude || x.id in Ids(before) then before else before + [x]
  }

  /** `out` has the entries of `scores` at the positions `ks`, in order. */
  ghost predicate Picks(scores: seq<Score>, out: seq<Score>, ks: seq<nat>) {
    && |ks| == |out|
    && (forall i :: 0 <= i < |ks| ==> ks[i] < |scores| && out[i] == scores[ks[i]])
    && (forall i, j :: 0 <= i < j < |ks| ==> ks[i] < ks[j])
  }

  /** `out` has exactly the entries that are not excluded, in order. */
  ghost predicate KeepsUnseen(scores: seq<Score>, exclude: set<string>, out: seq<Score>) {
    exists ks: seq<nat> :: Picks(scores, out, ks) && UnseenAt(scores, exclude, ks)
  }

  /** `out` has exactly the entries that are not excluded and are the first ones with their id, in order. */
  ghost predicate KeepsFirst(scores: seq<Score>, exclude: set<string>, out: seq<Score>) {
    exists ks: seq<nat> :: Picks(scores, out, ks) && FirstAt(scores, exclude, ks)
  }

  ghost predicate UnseenAt(scores: seq<Score>, exclude: set<string>, ks: seq<nat>) {
    forall p :: 0 <= p < |scores| ==> (p in ks <==> scores[p].id !in exclude)
  }

  ghost predicate FirstAt(scores: seq<Score>, exclude: set<string>, ks: seq<nat>) {
    forall p :: 0 <= p < |scores| ==> (p in ks <==> scores[p].id !in exclude && IsFirst(scores, p))
  }

  predicate IsFirst(scores: seq<Score>, p: nat)
    requires p < |scores|
  {
    forall q :: 0 <= q < p ==> scores[q].id != scores[p].id
  }

  /** The sum of the votes for one item. */
  function VotesFor(votes: seq<Score>, id: string): real {
    if votes == [] then 0.0 else VotesFor(votes[..|votes| - 1], id) + if votes[|votes| - 1].id == id then votes[|votes| - 1].score else 0.0
  }

  /** The pool has exactly the items with votes that are not excluded, each with the sum of its votes. */
  ghost predicate SumsVotes(votes: seq<Score>, exclude: set<string>, pool: map<string, real>) {
    && (forall id :: id in pool <==> id in Ids(votes) && id !in exclude)
    && (forall id :: id in pool ==> pool[id] == VotesFor(votes, id))
  }

  lemma PicksSnoc(scores: seq<Score>, out: seq<Score>, ks: seq<nat>, x: Score)
    requires Picks(scores, out, ks)
    ensures Picks(scores + [x], out, ks) && Picks(scores + [x], out + [x], ks + [|scores|])
  {
  }

  /** One more position, which is picked or not. */
  lemma PositionSnoc(scores: seq<Score>, out: seq<Score>, ks: seq<nat>, p: nat)
    requires Picks(scores, out, ks) && p <= |scores|
    ensures p in ks ==> p < |scores|
    ensures p in ks + [|scores|] <==> p in ks || p == |scores|
  {
  }

  lemma {:induction false} UnseenPicks(scores: seq<Score>, exclude: set<string>) returns (ks: seq<nat>)
    ensures Picks(scores, Unseen(scores, exclude), ks) && UnseenAt(scores, exclude, ks)
  {
    ks := [];
    if scores != [] {
      var before, x := scores[..|scores| - 1], scores[|scores| - 1];
      var out := Unseen(before, exclude);
      var some := UnseenPicks(before, exclude);
      PicksSnoc(before, out, some, x);
      assert scores == before + [x];
      ks := if x.id in exclude then some else some + [|before|];
      forall p | 0 <= p < |scores|
        ensures p in ks <==> scores[p].id !in exclude
      {
        PositionSnoc(before, out, some, p);
      }
    }
  }

  lemma UnseenExactly(scores: seq<Score>, exclude: set<string>)
    ensures KeepsUnseen(scores, exclude, Unseen(scores, exclude))
  {
    var ks := UnseenPicks(scores, exclude);
  }

  lemma FirstSnoc(before: seq<Score>, x: Score)
    ensures forall p :: 0 <= p < |before| ==> (IsFirst(before + [x], p) <==> IsFirst(before, p))
    ensures IsFirst(before + [x], |before|) <==> x.id !in Ids(before)
    ensures Ids(before + [x]) == Ids(before) + {x.id}
  {
    forall p | 0 <= p < |before|
      ensures IsFirst(before + [x], p) <==> IsFirst(before, p)
    {
      assert forall q :: 0 <= q <= p ==> (before + [x])[q] == before[q];
    }
    assert forall q :: 0 <= q < |before| ==> (before + [x])[q] == before[q];
    if x.id in Ids(before) {
      var y :| y in before && y.id == x.id;
      var q :| 0 <= q < |before| && before[q] == y;
      assert (before + [x])[q].id == (before + [x])[|before|].id;
    }
  }

  lemma {:induction false} FirstSeenIds(scores: seq<Score>, exclude: set<string>)
    ensures Ids(FirstSeen(scores, exclude)) == Ids(scores) - exclude
  {
    if scores != [] {
      var before, x := scores[..|scores| - 1], scores[|scores| - 1];
      FirstSeenIds(before, exclude);
      FirstSnoc(before, x);
      FirstSnoc(FirstSeen(before, exclude), x);
      assert scores == before + [x];
    }
  }

  lemma FirstAtSnoc(before: seq<Score>, x: Score, out: seq<Score>, ks: seq<nat>, exclude: set<string>)
    requires Picks(before, out, ks) && FirstAt(before, exclude, ks)
    ensures FirstAt(before + [x], exclude, if x.id in exclude || x.id in Ids(before) then ks else ks + [|before|])
  {
    FirstSnoc(before, x);
    forall p | 0 <= p < |before + [x]|
      ensures p in (if x.id in exclude || x.id in Ids(before) then ks else ks + [|before|])
              <==> (before + [x])[p].id !in exclude && IsFirst(before + [x], p)
    {
      PositionSnoc(before, out, ks, p);
    }
  }

  lemma {:induction false} FirstSeenPicks(scores: seq<Score>, exclude: set<string>) returns (ks: seq<nat>)
    ensures Picks(scores, FirstSeen(scores, exclude), ks) && FirstAt(scores, exclude, ks)
  {
    ks := [];
    if scores != [] {
      var before, x := scores[..|scores| - 1], scores[|scores| - 1];
      var out := FirstSeen(before, exclude);
      var some := FirstSeenPicks(before, exclude);
      FirstSeenIds(before, exclude);
      PicksSnoc(before, out, some, x);
      FirstAtSnoc(before, x, out, some, exclude);
      assert scores == before + [x];
      ks := if x.id in exclude || x.id in Ids(before) then some else some + [|before|];
    }
  }

  lemma FirstSeenExactly(scores: seq<Score>, exclude: set<string>)
    ensures KeepsFirst(scores, exclude, FirstSeen(scores, exclude))
    ensures Ids(FirstSeen(scores, exclude)) == Ids(scores) - exclude
  {
    var ks := FirstSeenPicks(scores, exclude);
    FirstSeenIds(scores, exclude);
  }

  /** Nothing excluded and no repeats: the list itself. */
  lemma {:induction false} FirstSeenAll(scores: seq<Score>, exclude: set<string>)
    requires DistinctIds(scores) && Ids(scores) !! exclude
    ensures FirstSeen(scores, exclude) == scores && Unseen(scores, exclude) == scores
  {
    if scores != [] {
      var before, x := scores[..|scores| - 1], scores[|scores| - 1];
      assert scores == before + [x];
      FirstSnoc(before, x);
      FirstSeenAll(before, exclude);
      assert IsFirst(scores, |before|);
    }
  }

  lemma {:induction false} PoolExactly(votes: seq<Score>, exclude: set<string>)
    ensures SumsVotes(votes, exclude, Pool(votes, exclude))
  {
    if votes != [] {
      var before, v := votes[..|votes| - 1], votes[|votes| - 1];
      PoolExactly(before, exclude);
      FirstSnoc(before, v);
      assert votes == before + [v];
      if v.id !in Ids(before) {
        NoVotes(before, v.id);
      }
    }
  }

  lemma {:induction false} NoVotes(votes: seq<Score>, id: string)
    requires id !in Ids(votes)
    ensures VotesFor(votes, id) == 0.0
  {
    if votes != [] {
      var before, v := votes[..|votes| - 1], votes[|votes| - 1];
      assert votes == before + [v];
      FirstSnoc(before, v);
      NoVotes(before, id);
    }
  }

  lemma {:induction false} UnseenMembers(scores: seq<Score>, exclude: set<string>)
    ensures Ids(Unseen(scores, exclude)) !! exclude
    ensures forall x :: x in Unseen(scores, exclude) ==> x in scores
    ensures DistinctIds(scores) ==> DistinctIds(Unseen(scores, exclude))
  {
    if scores != [] {
      var before := scores[..|scores| - 1];
      UnseenMembers(before, exclude);
      if DistinctIds(scores) {
        assert DistinctIds(before);
        forall x | x in Unseen(before, exclude)
          ensures x.id != scores[|scores| - 1].id
        {
          var i :| 0 <= i < |before| && before[i] == x;
          assert scores[i] == x;
        }
      }
    }
  }

  lemma {:induction false} PoolKeys(votes: seq<Score>, exclude: set<string>)
    ensures Pool(votes, exclude).Keys !! exclude
  {
    if votes != [] {
      PoolKeys(votes[..|votes| - 1], exclude);
    }
  }

  lemma {:induction false} FirstSeenMembers(scores: seq<Score>, exclude: set<string>)
    ensures Ids(FirstSeen(scores, exclude)) !! exclude && DistinctIds(FirstSeen(scores, exclude))
  {
    if scores != [] {
      FirstSeenMembers(scores[..|scores| - 1], exclude);
    }
  }

  lemma UnseenTwice(x: Score)
    ensures Unseen([x, x], {}) == [x, x]
  {
    assert [x, x][..1] == [x] && [x][..0] == [];
    assert Unseen([x], {}) == [x];
  }
}
