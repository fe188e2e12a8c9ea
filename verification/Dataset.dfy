/**
 The training dataset. One log of (user, item, time) events is held as two transposed tables with
 aligned timestamps and counts; the splits distribute the log over a train and a test dataset.
 */
module Dataset {
  import opened Seqs
  import opened Dict

  datatype Event = Event(user: nat, item: nat, time: int)

  // ---------- an event log and its projections ----------

  ghost function UserEvents(log: seq<Event>, u: nat): seq<Event> {
    if log == [] then []
    else
      var before := UserEvents(log[..|log| - 1], u);
      if log[|log| - 1].user == u then before + [log[|log| - 1]] else before
  }

  ghost function ItemEvents(log: seq<Event>, i: nat): seq<Event> {
    if log == [] then []
    else
      var before := ItemEvents(log[..|log| - 1], i);
      if log[|log| - 1].item == i then before + [log[|log| - 1]] else before
  }

  ghost function Items(log: seq<Event>): (r: seq<nat>)
    ensures |r| == |log| && forall k :: 0 <= k < |log| ==> r[k] == log[k].item
  {
    if log == [] then [] else Items(log[..|log| - 1]) + [log[|log| - 1].item]
  }

  ghost function Users(log: seq<Event>): (r: seq<nat>)
    ensures |r| == |log| && forall k :: 0 <= k < |log| ==> r[k] == log[k].user
  {
    if log == [] then [] else Users(log[..|log| - 1]) + [log[|log| - 1].user]
  }

  ghost function Times(log: seq<Event>): (r: seq<int>)
    ensures |r| == |log| && forall k :: 0 <= k < |log| ==> r[k] == log[k].time
  {
    if log == [] then [] else Times(log[..|log| - 1]) + [log[|log| - 1].time]
  }

  lemma AppendEvent(log: seq<Event>, e: Event, n: nat)
    ensures UserEvents(log + [e], n) == if e.user == n then UserEvents(log, n) + [e] else UserEvents(log, n)
    ensures ItemEvents(log + [e], n) == if e.item == n then ItemEvents(log, n) + [e] else ItemEvents(log, n)
  {
    assert (log + [e])[..|log|] == log;
  }

  ghost predicate UserRows(byUser: seq<seq<nat>>, log: seq<Event>) {
    && (forall e :: e in log ==> e.user < |byUser|)
    && (forall u :: 0 <= u < |byUser| ==> byUser[u] == Items(UserEvents(log, u)))
  }

  ghost predicate TimeRows(times: seq<seq<int>>, log: seq<Event>) {
    forall u :: 0 <= u < |times| ==> times[u] == Times(UserEvents(log, u))
  }

  ghost predicate ItemRows(byItem: seq<seq<nat>>, log: seq<Event>) {
    && (forall e :: e in log ==> e.item < |byItem|)
    && (forall i :: 0 <= i < |byItem| ==> byItem[i] == Users(ItemEvents(log, i)))
  }

  /** The user table, the item table and the timestamps are projections of the log. */
  ghost predicate Represents(byUser: seq<seq<nat>>, byItem: seq<seq<nat>>, times: seq<seq<int>>, log: seq<Event>) {
    |times| == |byUser| && UserRows(byUser, log) && TimeRows(times, log) && ItemRows(byItem, log)
  }

  /** Rows for users or items that the log does not mention are empty. */
  lemma RepresentsMore(byUser: seq<seq<nat>>, byItem: seq<seq<nat>>, times: seq<seq<int>>, log: seq<Event>)
    requires Represents(byUser, byItem, times, log)
    ensures Represents(byUser + [[]], byItem, times + [[]], log)
    ensures Represents(byUser, byItem + [[]], times, log)
  {
    EventsBeyond(log, |byUser|);
    EventsBeyond(log, |byItem|);
  }

  ghost predicate UserCounts(cnt: seq<nat>, log: seq<Event>) {
    && (forall e :: e in log ==> e.user < |cnt|)
    && (forall u :: 0 <= u < |cnt| ==> cnt[u] == |UserEvents(log, u)|)
  }

  ghost predicate ItemCounts(cnt: seq<nat>, log: seq<Event>) {
    && (forall e :: e in log ==> e.item < |cnt|)
    && (forall i :: 0 <= i < |cnt| ==> cnt[i] == |ItemEvents(log, i)|)
  }

  /** One more count for entry i, which may be the next one. */
  function Bumped(cnt: seq<nat>, i: nat): seq<nat>
    requires i <= |cnt|
  {
    if i < |cnt| then cnt[i := cnt[i] + 1] else cnt + [1]
  }

  lemma CountsMore(cnt: seq<nat>, log: seq<Event>)
    ensures UserCounts(cnt, log) ==> UserCounts(cnt + [0], log)
    ensures ItemCounts(cnt, log) ==> ItemCounts(cnt + [0], log)
  {
    EventsBeyond(log, |cnt|);
  }

  lemma CountsAdd(users: seq<nat>, items: seq<nat>, log: seq<Event>, e: Event)
    requires UserCounts(users, log) && e.user <= |users| && ItemCounts(items, log) && e.item <= |items|
    ensures UserCounts(Bumped(users, e.user), log + [e]) && ItemCounts(Bumped(items, e.item), log + [e])
  {
    EventsBeyond(log, |users|);
    EventsBeyond(log, |items|);
    forall n: nat
      ensures |UserEvents(log + [e], n)| == |UserEvents(log, n)| + if e.user == n then 1 else 0
      ensures |ItemEvents(log + [e], n)| == |ItemEvents(log, n)| + if e.item == n then 1 else 0
    {
      AppendEvent(log, e, n);
    }
  }

  /** No event refers to a number that was never given out. */
  lemma {:induction false} EventsBeyond(log: seq<Event>, n: nat)
    ensures (forall e :: e in log ==> e.user < n) ==> UserEvents(log, n) == []
    ensures (forall e :: e in log ==> e.item < n) ==> ItemEvents(log, n) == []
  {
    if log != [] {
      assert log == log[..|log| - 1] + [log[|log| - 1]];
      EventsBeyond(log[..|log| - 1], n);
    }
  }

  lemma {:induction false} UserEventsConcat(a: seq<Event>, b: seq<Event>, u: nat)
    ensures UserEvents(a + b, u) == UserEvents(a, u) + UserEvents(b, u)
  {
    if b == [] {
      assert a + b == a;
    } else {
      var n := |b| - 1;
      assert a + b == (a + b[..n]) + [b[n]] && b == b[..n] + [b[n]];
      AppendEvent(a + b[..n], b[n], u);
      AppendEvent(b[..n], b[n], u);
      UserEventsConcat(a, b[..n], u);
    }
  }

  /** A stretch of events of one user is seen by that user only, in full. */
  lemma {:induction false} UserEventsOfOne(b: seq<Event>, owner: nat, u: nat)
    requires forall e :: e in b ==> e.user == owner
    ensures UserEvents(b, u) == if u == owner then b else []
  {
    if b != [] {
      var n := |b| - 1;
      assert b == b[..n] + [b[n]];
      UserEventsOfOne(b[..n], owner, u);
    }
  }

  lemma {:induction false} UserEventsCount(log: seq<Event>, e: Event)
    ensures multiset(UserEvents(log, e.user))[e] == multiset(log)[e]
  {
    if log != [] {
      var n := |log| - 1;
      assert log == log[..n] + [log[n]];
      UserEventsCount(log[..n], e);
    }
  }

  /** How often user `u` and item `i` meet in the log. */
  ghost function Pairs(log: seq<Event>, u: nat, i: nat): nat {
    if log == [] then 0
    else Pairs(log[..|log| - 1], u, i) + if log[|log| - 1].user == u && log[|log| - 1].item == i then 1 else 0
  }

  lemma {:induction false} PairsByUser(log: seq<Event>, u: nat, i: nat)
    ensures multiset(Items(UserEvents(log, u)))[i] == Pairs(log, u, i)
  {
    if log != [] {
      var n := |log| - 1;
      var e := log[n];
      PairsByUser(log[..n], u, i);
      if e.user == u {
        assert Items(UserEvents(log, u)) == Items(UserEvents(log[..n], u)) + [e.item];
      }
    }
  }

  lemma {:induction false} PairsByItem(log: seq<Event>, u: nat, i: nat)
    ensures multiset(Users(ItemEvents(log, i)))[u] == Pairs(log, u, i)
  {
    if log != [] {
      var n := |log| - 1;
      var e := log[n];
      PairsByItem(log[..n], u, i);
      if e.item == i {
        assert Users(ItemEvents(log, i)) == Users(ItemEvents(log[..n], i)) + [e.user];
      }
    }
  }

  // ---------- the dataset ----------

  class Dataset {
    var users: seq<string>
    var items: seq<string>
    var userFeedback: seq<seq<nat>>
    var itemFeedback: seq<seq<nat>>
    var timestamps: seq<seq<int>>
    var userDict: FreqDict
    var itemDict: FreqDict
    var numFeedback: nat
    ghost var events: seq<Event>

    /** Both tables, the timestamps and the total are projections of one event log. */
    ghost predicate Tables()
      reads this
    {
      Represents(userFeedback, itemFeedback, timestamps, events) && numFeedback == |events|
    }

    /** Every dictionary count is the number of events of that user or item. */
    ghost predicate Counts()
      reads this, userDict, itemDict
    {
      && userDict != itemDict && userDict.Valid() && itemDict.Valid()
      && UserCounts(userDict.cnt, events) && ItemCounts(itemDict.cnt, events)
    }

    ghost predicate Valid()
      reads this, userDict, itemDict
    {
      Tables() && Counts() && |users| <= |userFeedback| && |items| <= |itemFeedback|
    }

    /** The dense number of a user or item is its position in the list. */
    ghost predicate Aligned()
      reads this, userDict, itemDict
    {
      users == userDict.names && items == itemDict.names
    }

    constructor (userCount: nat, itemCount: nat)
      ensures Valid() && Aligned() && events == [] && users == [] && items == []
      ensures |userFeedback| == userCount && |itemFeedback| == itemCount
      ensures fresh(userDict) && fresh(itemDict)
    {
      users, items := [], [];
      userFeedback := seq(userCount, _ => []);
      itemFeedback := seq(itemCount, _ => []);
      timestamps := seq(userCount, _ => []);
      userDict := new FreqDict();
      itemDict := new FreqDict();
      numFeedback := 0;
      events := [];
    }

    /** Adds a user. The invariant is kept for any id; positions stay aligned iff the id is new. */
    method AddUser(id: string)
      requires Valid()
      modifies this`users, this`userFeedback, this`timestamps, userDict
      ensures Valid() && users == old(users) + [id]
      ensures userDict.names == WithName(old(userDict.names), id)
      ensures old(Aligned()) ==> (Aligned() <==> id !in old(userDict.names))
    {
      users := users + [id];
      RegisterUser(id);
      GrowUserRows();
    }

    /** The dictionary update of a new user. */
    method RegisterUser(id: string)
      requires Counts()
      modifies userDict
      ensures Counts() && userDict.names == WithName(old(userDict.names), id)
    {
      CountsMore(userDict.cnt, events);
      var _ := userDict.AddNoCount(id);
    }

    /** A row for the user just added, unless the tables were made large enough. */
    method GrowUserRows()
      requires Tables() && |users| <= |userFeedback| + 1
      modifies this`userFeedback, this`timestamps
      ensures Tables() && |users| <= |userFeedback|
    {
      RepresentsMore(userFeedback, itemFeedback, timestamps, events);
      if |userFeedback| < |users| {
        userFeedback := userFeedback + [[]];
      }
      if |timestamps| < |users| {
        timestamps := timestamps + [[]];
      }
    }

    method AddItem(id: string)
      requires Valid()
      modifies this`items, this`itemFeedback, itemDict
      ensures Valid() && items == old(items) + [id]
      ensures itemDict.names == WithName(old(itemDict.names), id)
      ensures old(Aligned()) ==> (Aligned() <==> id !in old(itemDict.names))
    {
      RepresentsMore(userFeedback, itemFeedback, timestamps, events);
      CountsMore(itemDict.cnt, events);
      items := items + [id];
      var _ := itemDict.AddNoCount(id);
      if |itemFeedback| < |items| {
        itemFeedback := itemFeedback + [[]];
      }
    }

    /** The four appends that record one event. */
    method Append(e: Event)
      requires Tables() && e.user < |userFeedback| && e.item < |itemFeedback|
      modifies this`userFeedback, this`itemFeedback, this`timestamps, this`numFeedback, this`events
      ensures Tables() && events == old(events) + [e]
      ensures |userFeedback| == |old(userFeedback)| && |itemFeedback| == |old(itemFeedback)|
    {
      userFeedback := userFeedback[e.user := userFeedback[e.user] + [e.item]];
      itemFeedback := itemFeedback[e.item := itemFeedback[e.item] + [e.user]];
      timestamps := timestamps[e.user := timestamps[e.user] + [e.time]];
      numFeedback := numFeedback + 1;
      events := events + [e];
    }

    /** The precondition is the bounds check of the two row accesses. */
    method AddFeedback(userId: string, itemId: string, time: int)
      requires Valid()
      requires userDict.IdAfter(userId) < |userFeedback| && itemDict.IdAfter(itemId) < |itemFeedback|
      modifies this`userFeedback, this`itemFeedback, this`timestamps, this`numFeedback, this`events, userDict, itemDict
      ensures Valid()
      ensures events == old(events) + [Event(old(userDict.IdAfter(userId)), old(itemDict.IdAfter(itemId)), time)]
      ensures old(Aligned()) ==> (Aligned() <==> userId in old(userDict.names) && itemId in old(itemDict.names))
    {
      var u, i := CountPair(userId, itemId, time);
      Append(Event(u, i, time));
    }

    /** The two dictionary updates of an event. */
    method CountPair(userId: string, itemId: string, ghost time: int) returns (u: nat, i: nat)
      requires Counts()
      modifies userDict, itemDict
      ensures u == old(userDict.IdAfter(userId)) && i == old(itemDict.IdAfter(itemId))
      ensures userDict.Valid() && itemDict.Valid()
      ensures UserCounts(userDict.cnt, events + [Event(u, i, time)]) && ItemCounts(itemDict.cnt, events + [Event(u, i, time)])
      ensures userDict.names == WithName(old(userDict.names), userId) && itemDict.names == WithName(old(itemDict.names), itemId)
    {
      u := userDict.Add(userId);
      i := itemDict.Add(itemId);
      ghost var e := Event(u, i, time);
      CountsAdd(old(userDict.cnt), old(itemDict.cnt), events, e);
    }

    // ---------- splits ----------

    /** Every event refers to a listed user and a listed item, so both loops below stay in bounds. */
    ghost predicate InRange()
      reads this
    {
      |users| <= |userFeedback| && forall e :: e in events ==> e.user < |users| && e.item < |items|
    }

    /** An empty dataset over the same users, items and dictionaries. */
    constructor Like(d: Dataset)
      ensures users == d.users && items == d.items && userDict == d.userDict && itemDict == d.itemDict
      ensures Tables() && events == []
      ensures |userFeedback| == |users| && |itemFeedback| == |items|
    {
      users, items := d.users, d.items;
      userDict, itemDict := d.userDict, d.itemDict;
      userFeedback := seq(|d.users|, _ => []);
      itemFeedback := seq(|d.items|, _ => []);
      timestamps := seq(|d.users|, _ => []);
      numFeedback := 0;
      events := [];
    }

    /** A dataset over the users and items of `d` that is safe to append to. */
    ghost predicate PartOf(d: Dataset)
      reads this, d
    {
      && Tables() && users == d.users && items == d.items && userDict == d.userDict && itemDict == d.itemDict
      && |userFeedback| == |d.users| && |itemFeedback| == |d.items|
    }

    /** The k-th event of user u, read from the tables. */
    lemma RowEvent(u: nat, k: nat)
      requires Tables() && u < |userFeedback| && k < |UserEvents(events, u)|
      ensures |userFeedback[u]| == |timestamps[u]| == |UserEvents(events, u)|
      ensures UserEvents(events, u)[k] == Event(u, userFeedback[u][k], timestamps[u][k])
      ensures UserEvents(events, u)[k] in events
    {
      UserEventsOwned(events, u);
    }

    /** Copies the i-th event of a user. */
    method CopyEvent(u: nat, i: nat, part: Dataset)
      requires Tables() && InRange() && u < |users| && i < |userFeedback[u]|
      requires part != this && part.PartOf(this)
      modifies part
      ensures part.PartOf(this) && i < |UserEvents(events, u)|
      ensures part.events == old(part.events) + [UserEvents(events, u)[i]]
    {
      RowEvent(u, i);
      part.Append(Event(u, userFeedback[u][i], timestamps[u][i]));
    }

    /** Copies the whole row of a user. */
    method TakeRow(u: nat, train: Dataset)
      requires Tables() && InRange() && u < |users| && train != this && train.PartOf(this)
      modifies train
      ensures train.PartOf(this) && train.events == old(train.events) + UserEvents(events, u)
    {
      ghost var row := UserEvents(events, u);
      for i := 0 to |userFeedback[u]|
        invariant train.PartOf(this) && train.events == old(train.events) + row[..i]
      {
        CopyEvent(u, i, train);
        assert row[..i + 1] == row[..i] + [row[i]];
      }
      assert row[..|row|] == row;
    }

    /** Copies the row of a user without its k-th event. */
    method TakeRowExcept(u: nat, k: nat, train: Dataset)
      requires Tables() && InRange() && u < |users| && k < |userFeedback[u]|
      requires train != this && train.PartOf(this)
      modifies train
      ensures train.PartOf(this)
      ensures train.events == old(train.events) + (UserEvents(events, u)[..k] + UserEvents(events, u)[k + 1..])
    {
      ghost var row := UserEvents(events, u);
      for i := 0 to |userFeedback[u]|
        invariant train.PartOf(this) && train.events == old(train.events) + Skipping(row, k, i)
      {
        if i != k {
          CopyEvent(u, i, train);
        }
      }
      SkippingRow(row, k);
    }

    /** Moves the k-th event of a user to the test set and the others to the train set. */
    method LeaveOneOut(u: nat, k: nat, train: Dataset, test: Dataset)
      requires Tables() && InRange() && u < |users| && k < |userFeedback[u]|
      requires train != this && test != this && train != test && train.PartOf(this) && test.PartOf(this)
      modifies train, test
      ensures train.PartOf(this) && test.PartOf(this)
      ensures test.events == old(test.events) + [UserEvents(events, u)[k]]
      ensures train.events == old(train.events) + (UserEvents(events, u)[..k] + UserEvents(events, u)[k + 1..])
    {
      CopyEvent(u, k, test);
      TakeRowExcept(u, k, train);
    }

    ghost predicate Chosen(numTestUsers: int, testUsers: seq<nat>, u: nat)
      reads this
    {
      numTestUsers >= |users| || numTestUsers <= 0 || u in testUsers
    }

    /** One user's turn: LeaveOneOut if there is feedback. Other users are not affected. */
    method SplitUser(u: nat, k: nat, train: Dataset, test: Dataset)
      requires Tables() && InRange() && u < |users| && (userFeedback[u] != [] ==> k < |userFeedback[u]|)
      requires train != this && test != this && train != test && train.PartOf(this) && test.PartOf(this)
      requires Untouched(train.events, test.events, u)
      modifies train, test
      ensures train.PartOf(this) && test.PartOf(this)
      ensures Shared(events, train.events, test.events, true, k, u)
      ensures OthersKept(events, old(train.events), old(test.events), train.events, test.events, u)
    {
      ghost var row := UserEvents(events, u);
      if |userFeedback[u]| > 0 {
        LeftOut(events, train.events, test.events, k, u);
        LeaveOneOut(u, k, train, test);
      }
    }

    /** Every user is tested. */
    method SplitEveryUser(picks: seq<nat>, train: Dataset, test: Dataset)
      requires Tables() && InRange() && train != this && test != this && train != test
      requires train.PartOf(this) && test.PartOf(this) && train.events == [] && test.events == []
      requires |picks| == |users| && forall u :: 0 <= u < |users| && userFeedback[u] != [] ==> picks[u] < |userFeedback[u]|
      modifies train, test
      ensures train.PartOf(this) && test.PartOf(this)
      ensures forall u :: 0 <= u < |users| ==> Shared(events, train.events, test.events, true, picks[u], u)
    {
      for u := 0 to |users|
        invariant train.PartOf(this) && test.PartOf(this)
        invariant forall v :: 0 <= v < u ==> Shared(events, train.events, test.events, true, picks[v], v)
        invariant forall v :: u <= v < |users| ==> Untouched(train.events, test.events, v)
      {
        SplitUser(u, picks[u], train, test);
      }
    }

    /** The sampled users are tested. */
    method SplitSampledUsers(testUsers: seq<nat>, picks: seq<nat>, train: Dataset, test: Dataset)
      requires Tables() && InRange() && train != this && test != this && train != test
      requires train.PartOf(this) && test.PartOf(this) && train.events == [] && test.events == []
      requires |picks| == |users| && forall u :: 0 <= u < |users| && userFeedback[u] != [] ==> picks[u] < |userFeedback[u]|
      requires Distinct(testUsers) && forall j :: 0 <= j < |testUsers| ==> testUsers[j] < |users|
      modifies train, test
      ensures train.PartOf(this) && test.PartOf(this)
      ensures forall v :: 0 <= v < |users| && v in testUsers ==> Shared(events, train.events, test.events, true, picks[v], v)
      ensures forall v :: 0 <= v < |users| && v !in testUsers ==> Untouched(train.events, test.events, v)
    {
      for j := 0 to |testUsers|
        invariant train.PartOf(this) && test.PartOf(this)
        invariant Sampled(events, train.events, test.events, testUsers[..j], picks, |users|)
      {
        SplitSampledUser(testUsers[..j], testUsers[j], picks, train, test);
      }
      assert testUsers[..|testUsers|] == testUsers;
    }

    method SplitSampledUser(ghost done: seq<nat>, u: nat, picks: seq<nat>, train: Dataset, test: Dataset)
      requires Tables() && InRange() && train != this && test != this && train != test
      requires train.PartOf(this) && test.PartOf(this)
      requires |picks| == |users| && u < |users| && u !in done && (userFeedback[u] != [] ==> picks[u] < |userFeedback[u]|)
      requires Sampled(events, train.events, test.events, done, picks, |users|)
      modifies train, test
      ensures train.PartOf(this) && test.PartOf(this)
      ensures Sampled(events, train.events, test.events, done + [u], picks, |users|)
    {
      SplitUser(u, picks[u], train, test);
    }

    /** The others go to the train set. */
    method CopyOtherUsers(testUsers: seq<nat>, ghost picks: seq<nat>, train: Dataset, test: Dataset)
      requires Tables() && InRange() && train != this && test != this && train != test
      requires train.PartOf(this) && test.PartOf(this) && |picks| == |users|
      requires forall v :: 0 <= v < |users| && v in testUsers ==> Shared(events, train.events, test.events, true, picks[v], v)
      requires forall v :: 0 <= v < |users| && v !in testUsers ==> Untouched(train.events, test.events, v)
      modifies train
      ensures train.PartOf(this) && test.PartOf(this)
      ensures forall u :: 0 <= u < |users| ==> Shared(events, train.events, test.events, u in testUsers, picks[u], u)
    {
      for u := 0 to |users|
        invariant train.PartOf(this) && test.PartOf(this)
        invariant forall v :: 0 <= v < |users| && (v < u || v in testUsers) ==>
          Shared(events, train.events, test.events, v in testUsers, picks[v], v)
        invariant forall v :: u <= v < |users| && v !in testUsers ==> Untouched(train.events, test.events, v)
      {
        if u !in testUsers {
          RowCopied(events, train.events, test.events, picks[u], u);
          TakeRow(u, train);
        }
      }
    }

    /** The leave-one-out split in terms of shares. */
    method SplitShares(numTestUsers: int, testUsers: seq<nat>, picks: seq<nat>) returns (train: Dataset, test: Dataset)
      requires Tables() && InRange()
      requires |picks| == |users| && forall u :: 0 <= u < |users| && userFeedback[u] != [] ==> picks[u] < |userFeedback[u]|
      requires Distinct(testUsers) && forall j :: 0 <= j < |testUsers| ==> testUsers[j] < |users|
      ensures fresh(train) && fresh(test) && train != test && train.PartOf(this) && test.PartOf(this)
      ensures forall u :: 0 <= u < |users| ==>
        Shared(events, train.events, test.events, Chosen(numTestUsers, testUsers, u), picks[u], u)
      ensures multiset(train.events) + multiset(test.events) == multiset(events)
      ensures train.numFeedback + test.numFeedback == numFeedback
    {
      train := new Dataset.Like(this);
      test := new Dataset.Like(this);
      if numTestUsers >= |users| || numTestUsers <= 0 {
        SplitEveryUser(picks, train, test);
      } else {
        SplitSampledUsers(testUsers, picks, train, test);
        CopyOtherUsers(testUsers, picks, train, test);
      }
      forall u: nat
        ensures multiset(UserEvents(train.events, u)) + multiset(UserEvents(test.events, u)) == multiset(UserEvents(events, u))
      {
        if u < |users| {
          SharesAddUp(UserEvents(events, u), Chosen(numTestUsers, testUsers, u), picks[u]);
        } else {
          EventsBeyond(train.events, u);
          EventsBeyond(test.events, u);
          EventsBeyond(events, u);
        }
      }
      Conservation(events, train.events, test.events);
    }

    ghost function UsersWithFeedback(): set<nat>
      reads this
      requires |users| <= |userFeedback|
    {
      set u | 0 <= u < |users| && userFeedback[u] != []
    }

    /**
     Leave-one-out split. The random choices are parameters: `picks[u]` is the event of user u that
     would be held out, `testUsers` the sampled users when only some are tested. Without a number of test users, or
     with one that covers all users, every user with feedback is tested; otherwise the sampled ones are. A tested
     user has exactly the picked event in the test set and the others in order in the train set; the row of any
     other user is in the train set as it is.
     */
    method SplitCF(numTestUsers: int, testUsers: seq<nat>, picks: seq<nat>) returns (train: Dataset, test: Dataset)
      requires Tables() && InRange()
      requires |picks| == |users| && forall u :: 0 <= u < |users| && userFeedback[u] != [] ==> picks[u] < |userFeedback[u]|
      requires Distinct(testUsers) && forall j :: 0 <= j < |testUsers| ==> testUsers[j] < |users|
      requires 0 < numTestUsers < |users| ==> |testUsers| == numTestUsers
      ensures fresh(train) && fresh(test) && train != test && train.PartOf(this) && test.PartOf(this)
      ensures forall u :: 0 <= u < |users| ==>
        Shared(events, train.events, test.events, Chosen(numTestUsers, testUsers, u), picks[u], u)
      ensures numTestUsers <= 0 || numTestUsers >= |users| ==> SplitOff(train, test, UsersWithFeedback(), picks)
      ensures 0 < numTestUsers < |users| ==> SplitOff(train, test, UsersWithFeedback() * (set u | u in testUsers), picks)
      ensures multiset(train.events) + multiset(test.events) == multiset(events)
      ensures train.numFeedback + test.numFeedback == numFeedback
    {
      train, test := SplitShares(numTestUsers, testUsers, picks);
      ghost var all, sampled := UsersWithFeedback(), set u | u in testUsers;
      ghost var tested := if numTestUsers <= 0 || numTestUsers >= |users| then all else all * sampled;
      forall u | 0 <= u < |users|
        ensures RowSplit(userFeedback[u], train.userFeedback[u], test.userFeedback[u], u in tested, picks[u])
        ensures |UserEvents(test.events, u)| == if u in tested then 1 else 0
      {
        SharedRows(train, test, Chosen(numTestUsers, testUsers, u), picks[u], u);
      }
      forall u: nat | u >= |users|
        ensures UserEvents(test.events, u) == []
      {
        EventsBeyond(test.events, u);
      }
      OneEventEach(test.events, tested);
    }

    /** The tested users have their picked event in the test table and the others in the train table. */
    ghost predicate SplitOff(train: Dataset, test: Dataset, tested: set<nat>, picks: seq<nat>)
      reads this, train, test
    {
      && |picks| == |users| <= |userFeedback| && |train.userFeedback| == |test.userFeedback| == |users|
      && (forall u :: 0 <= u < |users| ==> RowSplit(userFeedback[u], train.userFeedback[u], test.userFeedback[u], u in tested, picks[u]))
      && test.numFeedback == |tested|
    }

    /** The shares of a user, read from the tables. */
    lemma SharedRows(train: Dataset, test: Dataset, chosen: bool, k: nat, u: nat)
      requires Tables() && InRange() && train.PartOf(this) && test.PartOf(this) && u < |users|
      requires Shared(events, train.events, test.events, chosen, k, u) && (userFeedback[u] != [] ==> k < |userFeedback[u]|)
      ensures RowSplit(userFeedback[u], train.userFeedback[u], test.userFeedback[u], chosen && userFeedback[u] != [], k)
      ensures |UserEvents(test.events, u)| == if chosen && userFeedback[u] != [] then 1 else 0
    {
    }

    /**
     Temporal split: `orders[u]` is the row of user u sorted by time, latest first. The latest event
     is tested, up to `shots` of the next ones are kept for training, the others are dropped.
     */
    method SplitLatest(shots: int, orders: seq<seq<nat>>) returns (train: Dataset, test: Dataset)
      requires Tables() && InRange()
      requires |orders| == |users| && forall u :: 0 <= u < |users| ==> LatestFirst(UserEvents(events, u), orders[u])
      ensures fresh(train) && fresh(test) && train != test && train.PartOf(this) && test.PartOf(this)
      ensures forall u :: 0 <= u < |users| ==> LatestShared(events, train.events, test.events, orders[u], shots, u)
      ensures forall u :: 0 <= u < |users| ==>
        Unleaked(UserEvents(events, u), UserEvents(train.events, u), UserEvents(test.events, u), if shots < 0 then 0 else shots)
    {
      train, test := SplitLatestRows(shots, orders);
      ghost var kept: nat := if shots < 0 then 0 else shots;
      forall u | 0 <= u < |users|
        ensures Unleaked(UserEvents(events, u), UserEvents(train.events, u), UserEvents(test.events, u), kept)
      {
        assert Kept(orders[u], shots) == Kept(orders[u], kept);
        LatestIsUnleaked(events, train.events, test.events, orders[u], kept, u);
      }
    }

    /** The loop of the temporal split. */
    method SplitLatestRows(shots: int, orders: seq<seq<nat>>) returns (train: Dataset, test: Dataset)
      requires Tables() && InRange()
      requires |orders| == |users| && forall u :: 0 <= u < |users| ==> LatestFirst(UserEvents(events, u), orders[u])
      ensures fresh(train) && fresh(test) && train != test && train.PartOf(this) && test.PartOf(this)
      ensures forall u :: 0 <= u < |users| ==> LatestShared(events, train.events, test.events, orders[u], shots, u)
    {
      train := new Dataset.Like(this);
      test := new Dataset.Like(this);
      for u := 0 to |users|
        invariant fresh(train) && fresh(test) && train != test && train.PartOf(this) && test.PartOf(this)
        invariant forall v :: 0 <= v < u ==> LatestShared(events, train.events, test.events, orders[v], shots, v)
        invariant forall v :: u <= v < |users| ==> Untouched(train.events, test.events, v)
      {
        LatestUser(u, orders[u], shots, train, test);
      }
    }

    method LatestUser(u: nat, order: seq<nat>, shots: int, train: Dataset, test: Dataset)
      requires Tables() && InRange() && u < |users| && LatestFirst(UserEvents(events, u), order)
      requires train != this && test != this && train != test && train.PartOf(this) && test.PartOf(this)
      requires Untouched(train.events, test.events, u)
      modifies train, test
      ensures train.PartOf(this) && test.PartOf(this)
      ensures LatestShared(events, train.events, test.events, order, shots, u)
      ensures LatestKept(events, old(train.events), old(test.events), train.events, test.events, u)
    {
      LatestStep(events, train.events, test.events, order, shots, u);
      LatestOfRow(u, order, shots, train, test);
    }

    method LatestOfRow(u: nat, order: seq<nat>, shots: int, train: Dataset, test: Dataset)
      requires Tables() && InRange() && u < |users| && LatestFirst(UserEvents(events, u), order)
      requires train != this && test != this && train != test && train.PartOf(this) && test.PartOf(this)
      modifies train, test
      ensures train.PartOf(this) && test.PartOf(this)
      ensures train.events == old(train.events) + Pick(UserEvents(events, u), Kept(order, shots))
      ensures test.events == old(test.events) + Pick(UserEvents(events, u), Tested(order))
    {
      if |userFeedback[u]| == 0 {
        return;
      }
      CopyEvent(u, order[0], test);
      assert Pick(UserEvents(events, u), Tested(order)) == [UserEvents(events, u)[order[0]]];
      TakeShots(u, order, shots, train);
    }

    method TakeShots(u: nat, order: seq<nat>, shots: int, train: Dataset)
      requires Tables() && InRange() && u < |users| && order != []
      requires |order| == |userFeedback[u]| && Below(order, |UserEvents(events, u)|)
      requires train != this && train.PartOf(this)
      modifies train
      ensures train.PartOf(this)
      ensures train.events == old(train.events) + Pick(UserEvents(events, u), Kept(order, shots))
    {
      ghost var row := UserEvents(events, u);
      var i := 1;
      while i < |userFeedback[u]| && i <= shots
        invariant 1 <= i <= |order| && (i == 1 || i <= shots + 1)
        invariant train.PartOf(this) && train.events == old(train.events) + Pick(row, order[1..i])
      {
        PickMore(row, order, i);
        CopyEvent(u, order[i], train);
        i := i + 1;
      }
    }

    /** The two tables are transposes: user u's row names item i as often as item i's row names user u. */
    lemma Transposed(u: nat, i: nat)
      requires Tables() && u < |userFeedback| && i < |itemFeedback|
      ensures multiset(userFeedback[u])[i] == multiset(itemFeedback[i])[u]
    {
      PairsByUser(events, u, i);
      PairsByItem(events, u, i);
    }

    /** The dictionary frequencies, from which IDF weights are computed, are the lengths of the table rows. */
    lemma FrequenciesAreRowLengths(n: nat)
      requires Valid()
      ensures n < |userFeedback| ==> userDict.Freq(n) == |userFeedback[n]| == |timestamps[n]|
      ensures n < |itemFeedback| ==> itemDict.Freq(n) == |itemFeedback[n]|
    {
      if n >= |userDict.cnt| || n >= |itemDict.cnt| {
        EventsBeyond(events, n);
      }
    }

    /** In a valid, aligned dataset a split never leaves the tables. */
    lemma AlignedInRange()
      requires Valid() && Aligned()
      ensures InRange()
    {
    }
  }

  /** For instance: feedback that arrives before its user and item are added leaves them without a position. */
  method FeedbackFirst(user: string, item: string, time: int) returns (d: Dataset)
    ensures fresh(d) && d.Valid() && !d.Aligned() && !d.InRange()
    ensures d.events == [Event(0, 0, time)] && d.users == [] && d.items == []
  {
    d := new Dataset(1, 1);
    assert d.userDict.names == [] && d.itemDict.names == [];
    d.AddFeedback(user, item, time);
    assert d.events[0] in d.events;
  }

  /** For instance: the second of two users with the same id gets a position without a number. */
  method SameUserTwice(user: string) returns (d: Dataset)
    ensures fresh(d) && d.Valid() && d.users == [user, user] && d.userDict.names == [user] && !d.Aligned()
  {
    d := new Dataset(0, 0);
    d.AddUser(user);
    d.AddUser(user);
  }

  // ---------- what the splits promise ----------

  /** How a row is split: its k-th entry goes to the test row and the others in order to the train row, or all of them do. */
  ghost predicate RowSplit(row: seq<nat>, train: seq<nat>, test: seq<nat>, tested: bool, k: nat) {
    if tested then k < |row| && test == [row[k]] && train == row[..k] + row[k + 1..]
    else test == [] && train == row
  }

  /** A log with one event of each of some users and no others has as many events as there are such users. */
  lemma {:induction false} OneEventEach(log: seq<Event>, tested: set<nat>)
    requires forall u :: |UserEvents(log, u)| == if u in tested then 1 else 0
    ensures |log| == |tested|
  {
    if log == [] {
      forall u: nat
        ensures u !in tested
      {
        assert |UserEvents(log, u)| == 0;
      }
    } else {
      var before, u := log[..|log| - 1], log[|log| - 1].user;
      assert |UserEvents(log, u)| == |UserEvents(before, u)| + 1;
      OneEventEach(before, tested - {u});
    }
  }

  /** What SplitCF owes each user: one test event per chosen user with feedback, the rest in order in train. */
  ghost predicate Shared(log: seq<Event>, train: seq<Event>, test: seq<Event>, chosen: bool, k: nat, u: nat) {
    && UserEvents(train, u) == TrainShare(UserEvents(log, u), chosen, k)
    && UserEvents(test, u) == TestShare(UserEvents(log, u), chosen, k)
  }

  /** The users in `done` have their share, the other ones nothing yet. */
  ghost predicate Sampled(log: seq<Event>, train: seq<Event>, test: seq<Event>, done: seq<nat>, picks: seq<nat>, n: nat)
    requires |picks| == n
  {
    && (forall v :: 0 <= v < n && v in done ==> Shared(log, train, test, true, picks[v], v))
    && (forall v :: 0 <= v < n && v !in done ==> Untouched(train, test, v))
  }

  ghost predicate Untouched(train: seq<Event>, test: seq<Event>, u: nat) {
    UserEvents(train, u) == [] && UserEvents(test, u) == []
  }

  /** A step for user u leaves every other user's share as it was. */
  ghost predicate OthersKept(log: seq<Event>, train0: seq<Event>, test0: seq<Event>,
                             train: seq<Event>, test: seq<Event>, u: nat)
  {
    && (forall v :: v != u && Untouched(train0, test0, v) ==> Untouched(train, test, v))
    && (forall v, c, k :: v != u && Shared(log, train0, test0, c, k, v) ==> Shared(log, train, test, c, k, v))
  }

  lemma {:induction false} LeftOut(log: seq<Event>, train: seq<Event>, test: seq<Event>, k: nat, u: nat)
    requires Untouched(train, test, u) && k < |UserEvents(log, u)|
    ensures var row := UserEvents(log, u);
            && Shared(log, train + (row[..k] + row[k + 1..]), test + [row[k]], true, k, u)
            && OthersKept(log, train, test, train + (row[..k] + row[k + 1..]), test + [row[k]], u)
  {
    var row := UserEvents(log, u);
    UserEventsOwned(log, u);
    AppendShare(train, row[..k] + row[k + 1..], u);
    AppendShare(test, [row[k]], u);
  }

  lemma RowCopied(log: seq<Event>, train: seq<Event>, test: seq<Event>, k: nat, u: nat)
    requires Untouched(train, test, u)
    ensures Shared(log, train + UserEvents(log, u), test, false, k, u)
    ensures OthersKept(log, train, test, train + UserEvents(log, u), test, u)
  {
    UserEventsOwned(log, u);
    AppendShare(train, UserEvents(log, u), u);
  }

  /** Row by row conservation adds up to conservation of the whole log. */
  lemma {:induction false} Conservation(log: seq<Event>, train: seq<Event>, test: seq<Event>)
    requires forall u :: multiset(UserEvents(train, u)) + multiset(UserEvents(test, u)) == multiset(UserEvents(log, u))
    ensures multiset(train) + multiset(test) == multiset(log)
    ensures |train| + |test| == |log|
  {
    forall e: Event
      ensures multiset(train)[e] + multiset(test)[e] == multiset(log)[e]
    {
      ConservationAt(log, train, test, e);
    }
    BagsAddUp(train, test, log);
  }

  lemma ConservationAt(log: seq<Event>, train: seq<Event>, test: seq<Event>, e: Event)
    requires multiset(UserEvents(train, e.user)) + multiset(UserEvents(test, e.user)) == multiset(UserEvents(log, e.user))
    ensures multiset(train)[e] + multiset(test)[e] == multiset(log)[e]
  {
    UserEventsCount(train, e);
    UserEventsCount(test, e);
    UserEventsCount(log, e);
    var sum := multiset(UserEvents(train, e.user)) + multiset(UserEvents(test, e.user));
    assert sum[e] == multiset(train)[e] + multiset(test)[e];
  }

  /** The first n events of a row without the k-th. */
  ghost function Skipping(row: seq<Event>, k: nat, n: nat): seq<Event>
    requires n <= |row|
  {
    if n == 0 then [] else Skipping(row, k, n - 1) + if n - 1 == k then [] else [row[n - 1]]
  }

  lemma {:induction false} SkippingAll(row: seq<Event>, k: nat, n: nat)
    requires n <= |row|
    ensures Skipping(row, k, n) == if k < n then row[..k] + row[k + 1..n] else row[..n]
  {
    if n > 0 {
      SkippingAll(row, k, n - 1);
    }
  }

  lemma SkippingRow(row: seq<Event>, k: nat)
    requires k < |row|
    ensures Skipping(row, k, |row|) == row[..k] + row[k + 1..]
  {
    SkippingAll(row, k, |row|);
    assert row[k + 1..|row|] == row[k + 1..];
  }

  ghost function TestShare(row: seq<Event>, chosen: bool, k: nat): seq<Event> {
    if chosen && k < |row| then [row[k]] else []
  }

  ghost function TrainShare(row: seq<Event>, chosen: bool, k: nat): seq<Event> {
    if chosen && k < |row| then row[..k] + row[k + 1..] else row
  }

  lemma SharesAddUp(row: seq<Event>, chosen: bool, k: nat)
    ensures multiset(TrainShare(row, chosen, k)) + multiset(TestShare(row, chosen, k)) == multiset(row)
  {
    if k < |row| {
      assert row == row[..k] + [row[k]] + row[k + 1..];
    }
  }

  lemma {:induction false} UserEventsOwned(log: seq<Event>, u: nat)
    ensures forall x :: x in UserEvents(log, u) ==> x in log && x.user == u
  {
    if log != [] {
      UserEventsOwned(log[..|log| - 1], u);
    }
  }

  lemma AppendShare(log: seq<Event>, share: seq<Event>, u: nat)
    requires forall e :: e in share ==> e.user == u
    ensures UserEvents(log + share, u) == UserEvents(log, u) + share
    ensures forall v :: v != u ==> UserEvents(log + share, v) == UserEvents(log, v)
  {
    forall v: nat
      ensures UserEvents(log + share, v) == if v == u then UserEvents(log, u) + share else UserEvents(log, v)
    {
      UserEventsConcat(log, share, v);
      UserEventsOfOne(share, u, v);
    }
  }

  predicate Below(order: seq<nat>, n: nat) {
    forall j :: 0 <= j < |order| ==> order[j] < n
  }

  /** The events of a row at the given positions. */
  ghost function Pick(row: seq<Event>, order: seq<nat>): (r: seq<Event>)
    requires Below(order, |row|)
    ensures |r| == |order| && forall j :: 0 <= j < |order| ==> r[j] == row[order[j]]
  {
    seq(|order|, j requires 0 <= j < |order| => row[order[j]])
  }

  function Range(n: nat): (r: seq<nat>)
    ensures |r| == n && forall k :: 0 <= k < n ==> r[k] == k
  {
    seq(n, k => k)
  }

  /** A rearrangement of 0..|row| that sorts the row by time, latest first; ties in any order. */
  ghost predicate LatestFirst(row: seq<Event>, order: seq<nat>) {
    && multiset(order) == multiset(Range(|row|))
    && |order| == |row| && Below(order, |row|)
    && (forall i, j :: 0 <= i < j < |order| ==> row[order[i]].time >= row[order[j]].time)
  }

  function Tested(order: seq<nat>): (r: seq<nat>)
    ensures forall n :: Below(order, n) ==> Below(r, n)
  {
    if order == [] then [] else order[..1]
  }

  function KeptEnd(order: seq<nat>, shots: int): (n: nat)
    ensures n <= |order|
  {
    if order == [] then 0 else if shots <= 0 then 1 else if shots + 1 < |order| then shots + 1 else |order|
  }

  function Kept(order: seq<nat>, shots: int): (r: seq<nat>)
    ensures forall n :: Below(order, n) ==> Below(r, n)
  {
    if order == [] then [] else order[1..KeptEnd(order, shots)]
  }

  function Dropped(order: seq<nat>, shots: int): (r: seq<nat>)
    ensures forall n :: Below(order, n) ==> Below(r, n)
  {
    order[KeptEnd(order, shots)..]
  }

  ghost predicate LatestShared(log: seq<Event>, train: seq<Event>, test: seq<Event>, order: seq<nat>, shots: int, u: nat) {
    && LatestFirst(UserEvents(log, u), order)
    && UserEvents(test, u) == Pick(UserEvents(log, u), Tested(order))
    && UserEvents(train, u) == Pick(UserEvents(log, u), Kept(order, shots))
  }

  ghost predicate LatestKept(log: seq<Event>, train0: seq<Event>, test0: seq<Event>,
                             train: seq<Event>, test: seq<Event>, u: nat)
  {
    && (forall v :: v != u && Untouched(train0, test0, v) ==> Untouched(train, test, v))
    && (forall v, o, s :: v != u && LatestShared(log, train0, test0, o, s, v) ==> LatestShared(log, train, test, o, s, v))
  }

  lemma KeptElsewhere(log: seq<Event>, train0: seq<Event>, test0: seq<Event>,
                                         train: seq<Event>, test: seq<Event>, u: nat)
    requires forall v :: v != u ==> UserEvents(train, v) == UserEvents(train0, v)
    requires forall v :: v != u ==> UserEvents(test, v) == UserEvents(test0, v)
    ensures LatestKept(log, train0, test0, train, test, u)
  {
  }

  /** What one user's turn does to the two logs. */
  lemma LatestStep(log: seq<Event>, train: seq<Event>, test: seq<Event>, order: seq<nat>, shots: int, u: nat)
    requires LatestFirst(UserEvents(log, u), order) && Untouched(train, test, u)
    ensures var row := UserEvents(log, u);
            var (kept, tested) := (Pick(row, Kept(order, shots)), Pick(row, Tested(order)));
            && LatestShared(log, train + kept, test + tested, order, shots, u)
            && LatestKept(log, train, test, train + kept, test + tested, u)
  {
    var row := UserEvents(log, u);
    var kept, tested := Pick(row, Kept(order, shots)), Pick(row, Tested(order));
    UserEventsOwned(log, u);
    PickOwned(row, Kept(order, shots), u);
    PickOwned(row, Tested(order), u);
    AppendShare(test, tested, u);
    AppendShare(train, kept, u);
    KeptElsewhere(log, train, test, train + kept, test + tested, u);
  }

  lemma PickOwned(row: seq<Event>, order: seq<nat>, u: nat)
    requires Below(order, |row|) && forall e :: e in row ==> e.user == u
    ensures forall e :: e in Pick(row, order) ==> e.user == u
  {
    forall j | 0 <= j < |order|
      ensures Pick(row, order)[j].user == u
    {
      assert row[order[j]] in row;
    }
  }

  lemma PickMore(row: seq<Event>, order: seq<nat>, i: nat)
    requires Below(order, |row|) && 1 <= i < |order|
    ensures Pick(row, order[1..i + 1]) == Pick(row, order[1..i]) + [row[order[i]]]
  {
    assert order[1..i + 1] == order[1..i] + [order[i]];
  }

  lemma PickConcat(row: seq<Event>, a: seq<nat>, b: seq<nat>)
    requires Below(a, |row|) && Below(b, |row|)
    ensures Pick(row, a + b) == Pick(row, a) + Pick(row, b)
  {
  }

  lemma PickAround(row: seq<Event>, a: seq<nat>, j: nat)
    requires Below(a, |row|) && j < |a|
    ensures Below(a[..j] + a[j + 1..], |row|)
    ensures multiset(Pick(row, a)) == multiset{row[a[j]]} + multiset(Pick(row, a[..j] + a[j + 1..]))
  {
    BagAround(Pick(row, a), j);
    assert Pick(row, a[..j] + a[j + 1..]) == Pick(row, a)[..j] + Pick(row, a)[j + 1..];
  }

  /** The first position of a can be taken out of any rearrangement b of a. */
  lemma PickOut(row: seq<Event>, a: seq<nat>, b: seq<nat>) returns (rest: seq<nat>)
    requires Below(a, |row|) && Below(b, |row|) && a != [] && multiset(a) == multiset(b)
    ensures Below(rest, |row|) && Below(a[1..], |row|) && multiset(a[1..]) == multiset(rest)
    ensures multiset(Pick(row, a)) == multiset{row[a[0]]} + multiset(Pick(row, a[1..]))
    ensures multiset(Pick(row, b)) == multiset{row[a[0]]} + multiset(Pick(row, rest))
  {
    var j := TakeOut(a, b);
    rest := b[..j] + b[j + 1..];
    PickAround(row, b, j);
    PickHead(row, a);
  }

  lemma PickHead(row: seq<Event>, a: seq<nat>)
    requires Below(a, |row|) && a != []
    ensures Below(a[1..], |row|)
    ensures multiset(Pick(row, a)) == multiset{row[a[0]]} + multiset(Pick(row, a[1..]))
  {
    assert Pick(row, a) == [row[a[0]]] + Pick(row, a[1..]);
  }

  lemma {:induction false} PickPermuted(row: seq<Event>, a: seq<nat>, b: seq<nat>)
    requires Below(a, |row|) && Below(b, |row|)
    requires multiset(a) == multiset(b)
    ensures multiset(Pick(row, a)) == multiset(Pick(row, b))
    decreases |a|
  {
    if a == [] {
      EmptyBag(a, b);
    } else {
      var rest := PickOut(row, a, b);
      PickPermuted(row, a[1..], rest);
    }
  }

  /**
   The temporal split leaks nothing and loses nothing unaccounted for: the tested event is at least
   as recent as every training event, those are at least as recent as every dropped one, there are
   min(shots, |row| - 1) of them, and the three parts together are the original row.
   */
  lemma NoLeak(row: seq<Event>, order: seq<nat>, shots: int)
    requires LatestFirst(row, order) && row != [] && shots >= 0
    ensures var (test, train, dropped) := (Pick(row, Tested(order)), Pick(row, Kept(order, shots)), Pick(row, Dropped(order, shots)));
            && |test| == 1 && |train| == (if shots < |row| - 1 then shots else |row| - 1)
            && (forall t :: t in train ==> t.time <= test[0].time)
            && (forall t, d :: t in train + test && d in dropped ==> d.time <= t.time)
            && multiset(test) + multiset(train) + multiset(dropped) == multiset(row)
  {
    PartsOfRow(row, order, shots);
    var n := KeptEnd(order, shots);
    assert order[..n] == Tested(order) + Kept(order, shots);
    PickConcat(row, Tested(order), Kept(order, shots));
    EarlierIsLater(row, order, n);
  }

  /**
   One user's part of a temporal split, in terms of the three rows alone: the test row is one event, at
   least as recent as every training event; there are min(shots, |row| - 1) of those; both parts together
   are a part of the row as a bag, and whatever is missing is at most as recent as what is there.
   */
  ghost predicate Unleaked(row: seq<Event>, train: seq<Event>, test: seq<Event>, shots: nat) {
    if row == [] then train == [] && test == []
    else
      && |test| == 1 && |train| == (if shots < |row| - 1 then shots else |row| - 1)
      && (forall t :: t in train ==> t.time <= test[0].time)
      && multiset(test) + multiset(train) <= multiset(row)
      && (forall t, d :: t in train + test && d in multiset(row) - (multiset(test) + multiset(train)) ==> d.time <= t.time)
  }

  lemma LatestIsUnleaked(log: seq<Event>, train: seq<Event>, test: seq<Event>, order: seq<nat>, shots: nat, u: nat)
    requires LatestShared(log, train, test, order, shots, u)
    ensures Unleaked(UserEvents(log, u), UserEvents(train, u), UserEvents(test, u), shots)
  {
    var row := UserEvents(log, u);
    if row != [] {
      NoLeak(row, order, shots);
      var dropped := Pick(row, Dropped(order, shots));
      var parts := multiset(UserEvents(test, u)) + multiset(UserEvents(train, u));
      assert multiset(row) - parts == multiset(dropped);
    }
  }

  /** In a row sorted latest first, whatever comes before a cut is at least as recent as what follows it. */
  lemma EarlierIsLater(row: seq<Event>, order: seq<nat>, n: nat)
    requires LatestFirst(row, order) && n <= |order|
    ensures forall t, d :: t in Pick(row, order[..n]) && d in Pick(row, order[n..]) ==> d.time <= t.time
    ensures forall t :: t in Pick(row, order) ==> t.time <= row[order[0]].time
  {
    forall t, d | t in Pick(row, order[..n]) && d in Pick(row, order[n..])
      ensures d.time <= t.time
    {
      var i :| 0 <= i < n && Pick(row, order[..n])[i] == t;
      var j :| 0 <= j < |order| - n && Pick(row, order[n..])[j] == d;
      assert t == row[order[i]] && d == row[order[n + j]];
    }
  }

  lemma PartsOfRow(row: seq<Event>, order: seq<nat>, shots: int)
    requires LatestFirst(row, order)
    ensures multiset(Pick(row, Tested(order))) + multiset(Pick(row, Kept(order, shots)))
            + multiset(Pick(row, Dropped(order, shots))) == multiset(row)
  {
    var head := Tested(order) + Kept(order, shots);
    assert order == head + Dropped(order, shots);
    PickConcat(row, Tested(order), Kept(order, shots));
    PickConcat(row, head, Dropped(order, shots));
    SortedRowIsRow(row, order);
  }

  lemma SortedRowIsRow(row: seq<Event>, order: seq<nat>)
    requires LatestFirst(row, order)
    ensures multiset(Pick(row, order)) == multiset(row)
  {
    PickPermuted(row, order, Range(|row|));
    assert Pick(row, Range(|row|)) == row;
  }

  lemma {:induction false} PairsConcat(a: seq<Event>, b: seq<Event>, u: nat, i: nat)
    ensures Pairs(a + b, u, i) == Pairs(a, u, i) + Pairs(b, u, i)
  {
    if b == [] {
      assert a + b == a;
    } else {
      var n := |b| - 1;
      assert (a + b)[..|a| + n] == a + b[..n];
      PairsConcat(a, b[..n], u, i);
    }
  }

  lemma {:induction false} PairsPermuted(a: seq<Event>, b: seq<Event>, u: nat, i: nat)
    requires multiset(a) == multiset(b)
    ensures Pairs(a, u, i) == Pairs(b, u, i)
    decreases |a|
  {
    if a == [] {
      EmptyBag(a, b);
    } else {
      var j := TakeOut(a, b);
      assert a == [a[0]] + a[1..];
      PairsPermuted(a[1..], b[..j] + b[j + 1..], u, i);
      PairsConcat([a[0]], a[1..], u, i);
      PairsConcat(b[..j], [b[j]] + b[j + 1..], u, i);
      PairsConcat([b[j]], b[j + 1..], u, i);
      PairsConcat(b[..j], b[j + 1..], u, i);
    }
  }

  /** A conserved log is conserved item by item as well. */
  lemma ItemsConserved(log: seq<Event>, train: seq<Event>, test: seq<Event>, i: nat)
    requires multiset(train) + multiset(test) == multiset(log)
    ensures multiset(Users(ItemEvents(train, i))) + multiset(Users(ItemEvents(test, i))) == multiset(Users(ItemEvents(log, i)))
  {
    forall u: nat
      ensures multiset(Users(ItemEvents(train, i)))[u] + multiset(Users(ItemEvents(test, i)))[u]
              == multiset(Users(ItemEvents(log, i)))[u]
    {
      PairsByItem(train, u, i);
      PairsByItem(test, u, i);
      PairsByItem(log, u, i);
      PairsConcat(train, test, u, i);
      PairsPermuted(train + test, log, u, i);
    }
    BagsAddUp(Users(ItemEvents(train, i)), Users(ItemEvents(test, i)), Users(ItemEvents(log, i)));
  }
}
