/**
 Loading positive feedback. Items are sorted by id and split into groups; each group reads its own
 stretch of the item-ordered feedback stream, cuts it into runs of one item and pushes every item of
 the group with its run to the recommenders. Ids are only compared, so they are integers here.
 */
module FeedbackGrouping {
  import opened Seqs

  datatype Feedback = Feedback(user: int, item: int, data: int)
  datatype Push = Push(item: int, feedback: seq<Feedback>)

  ghost predicate StrictlySorted(s: seq<int>) {
    forall i, j :: 0 <= i < j < |s| ==> s[i] < s[j]
  }

  ghost predicate ByItem(stream: seq<Feedback>) {
    forall i, j :: 0 <= i < j < |stream| ==> stream[i].item <= stream[j].item
  }

  // ---------- the reference: what every item should get ----------

  /** The feedback whose user and item are in the dataset. */
  function Known(stream: seq<Feedback>, users: set<int>, items: set<int>): seq<Feedback> {
    if stream == [] then []
    else
      var before := Known(stream[..|stream| - 1], users, items);
      var f := stream[|stream| - 1];
      if f.user in users && f.item in items then before + [f] else before
  }

  /** The stretch of a stream that names one item. */
  function Of(stream: seq<Feedback>, item: int): seq<Feedback> {
    if stream == [] then []
    else
      var before := Of(stream[..|stream| - 1], item);
      if stream[|stream| - 1].item == item then before + [stream[|stream| - 1]] else before
  }

  /** Every item once, with its feedback. */
  function Wanted(items: seq<int>, known: seq<Feedback>): seq<Push> {
    if items == [] then []
    else Wanted(items[..|items| - 1], known) + [Push(items[|items| - 1], Of(known, items[|items| - 1]))]
  }

  /** The items that have feedback, in order. */
  function Active(items: seq<int>, known: seq<Feedback>): seq<Push> {
    if items == [] then []
    else
      var before := Active(items[..|items| - 1], known);
      var x := items[|items| - 1];
      if Of(known, x) != [] then before + [Push(x, Of(known, x))] else before
  }

  /** The items without feedback, in order. */
  function Idle(items: seq<int>, known: seq<Feedback>): seq<Push> {
    if items == [] then []
    else
      var before := Idle(items[..|items| - 1], known);
      var x := items[|items| - 1];
      if Of(known, x) == [] then before + [Push(x, [])] else before
  }

  lemma {:induction false} ActiveAndIdle(items: seq<int>, known: seq<Feedback>)
    ensures multiset(Active(items, known)) + multiset(Idle(items, known)) == multiset(Wanted(items, known))
    ensures |Wanted(items, known)| == |items|
  {
    if items != [] {
      ActiveAndIdle(items[..|items| - 1], known);
    }
  }

  lemma OfSnoc(known: seq<Feedback>, f: Feedback, item: int)
    ensures Of(known + [f], item) == if f.item == item then Of(known, item) + [f] else Of(known, item)
  {
    assert (known + [f])[..|known|] == known;
  }

  lemma {:induction false} ActiveUnaffected(items: seq<int>, known: seq<Feedback>, f: Feedback)
    requires f.item !in items
    ensures Active(items, known + [f]) == Active(items, known)
  {
    if items != [] {
      ActiveUnaffected(items[..|items| - 1], known, f);
      OfSnoc(known, f, items[|items| - 1]);
    }
  }

  /** Items without feedback do not show among the active ones. */
  lemma {:induction false} ActiveSkips(items: seq<int>, known: seq<Feedback>, a: nat, b: nat)
    requires a <= b <= |items| && forall i :: a <= i < b ==> Of(known, items[i]) == []
    ensures Active(items[..b], known) == Active(items[..a], known)
  {
    if a < b {
      ActiveSkips(items, known, a, b - 1);
      assert items[..b][..b - 1] == items[..b - 1];
    }
  }

  lemma ActiveSnoc(items: seq<int>, known: seq<Feedback>, k: nat)
    requires k < |items|
    ensures Active(items[..k + 1], known)
            == if Of(known, items[k]) != [] then Active(items[..k], known) + [Push(items[k], Of(known, items[k]))]
               else Active(items[..k], known)
  {
    assert items[..k + 1][..k] == items[..k];
  }

  lemma {:induction false} OfMembers(known: seq<Feedback>, item: int)
    ensures forall f :: f in Of(known, item) ==> f.item == item && f in known
    ensures Of(known, item) == [] ==> forall f :: f in known ==> f.item != item
    ensures known != [] && known[|known| - 1].item == item ==> Of(known, item) != []
  {
    if known != [] {
      OfMembers(known[..|known| - 1], item);
      assert known == known[..|known| - 1] + [known[|known| - 1]];
    }
  }

  lemma {:induction false} KnownMembers(stream: seq<Feedback>, users: set<int>, items: set<int>)
    ensures forall f :: f in Known(stream, users, items) ==> f in stream && f.user in users && f.item in items
    ensures ByItem(stream) ==> ByItem(Known(stream, users, items))
  {
    if stream != [] {
      KnownMembers(stream[..|stream| - 1], users, items);
      assert stream == stream[..|stream| - 1] + [stream[|stream| - 1]];
    }
  }

  // ---------- the loop over one group ----------

  /** Between two feedback records: `g` is the group position of the item being buffered. */
  ghost predicate Buffering(group: seq<int>, known: seq<Feedback>, buffer: seq<Feedback>, g: nat,
                            flags: seq<bool>, pushes: seq<Push>)
  {
    && |flags| == |group|
    && (buffer == [] <==> known == [])
    && (known == [] ==> pushes == [] && forall i :: 0 <= i < |group| ==> !flags[i])
    && (known != [] ==>
          && g < |group| && group[g] == known[|known| - 1].item
          && buffer == Of(known, group[g])
          && pushes == Active(group[..g], known)
          && (forall i :: 0 <= i < |group| ==> flags[i] == (i < g && Of(known, group[i]) != []))
          && (forall i :: g < i < |group| ==> Of(known, group[i]) == []))
  }

  lemma OfAfter(group: seq<int>, known: seq<Feedback>, f: Feedback, h: nat)
    requires StrictlySorted(group) && h < |group| && f.item == group[h]
    ensures forall i :: 0 <= i < |group| ==>
      Of(known + [f], group[i]) == if i == h then Of(known, group[i]) + [f] else Of(known, group[i])
    ensures Active(group[..h], known + [f]) == Active(group[..h], known)
  {
    forall i | 0 <= i < |group|
      ensures Of(known + [f], group[i]) == if i == h then Of(known, group[i]) + [f] else Of(known, group[i])
    {
      OfSnoc(known, f, group[i]);
    }
    assert group[h] !in group[..h];
    ActiveUnaffected(group[..h], known, f);
  }

  /** The record continues the run. */
  lemma SameItem(group: seq<int>, known: seq<Feedback>, buffer: seq<Feedback>, g: nat,
                                    flags: seq<bool>, pushes: seq<Push>, f: Feedback)
    requires StrictlySorted(group) && Buffering(group, known, buffer, g, flags, pushes)
    requires known != [] && f.item == group[g]
    ensures Buffering(group, known + [f], buffer + [f], g, flags, pushes)
  {
    OfAfter(group, known, f, g);
  }

  /** The record starts a new run at position h; the old run has been pushed. */
  lemma NextItem(group: seq<int>, known: seq<Feedback>, buffer: seq<Feedback>, g: nat,
                                    flags: seq<bool>, pushes: seq<Push>, f: Feedback, h: nat)
    requires StrictlySorted(group) && Buffering(group, known, buffer, g, flags, pushes)
    requires known != [] && g < h < |group| && f.item == group[h]
    ensures Buffering(group, known + [f], [f], h, flags[g := true], pushes + [Push(group[g], buffer)])
  {
    var now := known + [f];
    OfMembers(known, group[g]);
    OfAfter(group, known, f, h);
    assert pushes + [Push(group[g], buffer)] == Active(group[..h], now) by {
      ActiveSnoc(group, known, g);
      ActiveSkips(group, known, g + 1, h);
    }
    assert Of(now, group[h]) == [f];
    forall i | 0 <= i < |group|
      ensures flags[g := true][i] == (i < h && Of(now, group[i]) != [])
    {
      assert Of(now, group[i]) == if i == h then Of(known, group[i]) + [f] else Of(known, group[i]);
    }
  }

  method FindPosition(group: seq<int>, item: int) returns (g: nat)
    requires item in group
    ensures g < |group| && group[g] == item
  {
    g := 0;
    while g < |group|
      invariant g <= |group| && item !in group[..g]
    {
      if group[g] == item {
        break;
      }
      g := g + 1;
    }
    assert group[..|group|] == group;
  }

  /** One record of the loop body. */
  method AddRecord(group: seq<int>, f: Feedback, buffer0: seq<Feedback>, g0: nat, flags0: seq<bool>, pushes0: seq<Push>,
                   ghost known: seq<Feedback>)
    returns (buffer: seq<Feedback>, g: nat, flags: seq<bool>, pushes: seq<Push>)
    requires StrictlySorted(group) && f.item in group && ByItem(known + [f])
    requires Buffering(group, known, buffer0, g0, flags0, pushes0)
    ensures Buffering(group, known + [f], buffer, g, flags, pushes)
  {
    buffer, flags, pushes := buffer0, flags0, pushes0;
    OfMembers(known, if known == [] then 0 else group[g0]);
    var continues := |buffer| == 0 || buffer[|buffer| - 1].item == f.item;
    if continues {
      buffer := buffer + [f];
    } else {
      flags := flags[g0 := true];
      pushes := pushes + [Push(group[g0], buffer)];
      buffer := [f];
    }
    g := FindPosition(group, f.item);
    if known == [] {
      assert known + [f] == [f] == buffer0 + [f];
      OfAfter(group, [], f, g);
      ActiveSkips(group, [], 0, g);
    } else {
      assert (known + [f])[|known| - 1].item <= (known + [f])[|known|].item;
      assert buffer0[|buffer0| - 1].item == group[g0];
      if continues {
        SameItem(group, known, buffer0, g0, flags0, pushes0, f);
      } else {
        NextItem(group, known, buffer0, g0, flags0, pushes0, f, g);
      }
    }
  }

  lemma Flushed(group: seq<int>, known: seq<Feedback>, buffer: seq<Feedback>, g: nat,
                                   flags: seq<bool>, pushes: seq<Push>)
    requires Buffering(group, known, buffer, g, flags, pushes)
    ensures known != [] ==> g < |group| && pushes + [Push(group[g], buffer)] == Active(group, known)
                            && forall i :: 0 <= i < |group| ==> flags[g := true][i] == (Of(known, group[i]) != [])
    ensures known == [] ==> pushes == Active(group, known)
                            && forall i :: 0 <= i < |group| ==> flags[i] == (Of(known, group[i]) != [])
  {
    assert group[..|group|] == group;
    if known != [] {
      OfMembers(known, group[g]);
      assert pushes + [Push(group[g], buffer)] == Active(group, known) by {
        ActiveSnoc(group, known, g);
        ActiveSkips(group, known, g + 1, |group|);
      }
    } else {
      ActiveSkips(group, known, 0, |group|);
    }
  }

  lemma IdleSnoc(items: seq<int>, known: seq<Feedback>, k: nat)
    requires k < |items|
    ensures Idle(items[..k + 1], known)
            == if Of(known, items[k]) == [] then Idle(items[..k], known) + [Push(items[k], [])] else Idle(items[..k], known)
  {
    assert items[..k + 1][..k] == items[..k];
  }

  /** After the last record: the pending run and then the items without feedback. */
  method Finish(group: seq<int>, buffer: seq<Feedback>, g: nat, flags0: seq<bool>, pushes0: seq<Push>,
                ghost known: seq<Feedback>) returns (pushes: seq<Push>)
    requires Buffering(group, known, buffer, g, flags0, pushes0)
    ensures pushes == Active(group, known) + Idle(group, known)
  {
    var flags := flags0;
    pushes := pushes0;
    Flushed(group, known, buffer, g, flags0, pushes0);
    if |buffer| > 0 {
      flags := flags[g := true];
      pushes := pushes + [Push(group[g], buffer)];
    }
    var idle := PushIdle(group, flags, known);
    pushes := pushes + idle;
  }

  method PushIdle(group: seq<int>, flags: seq<bool>, ghost known: seq<Feedback>) returns (pushes: seq<Push>)
    requires |flags| == |group| && forall i :: 0 <= i < |group| ==> flags[i] == (Of(known, group[i]) != [])
    ensures pushes == Idle(group, known)
  {
    pushes := [];
    for i := 0 to |flags|
      invariant pushes == Idle(group[..i], known)
    {
      IdleSnoc(group, known, i);
      if !flags[i] {
        pushes := pushes + [Push(group[i], [])];
      }
    }
    assert group[..|group|] == group;
  }

  lemma KnownSnoc(stream: seq<Feedback>, n: nat, users: set<int>, items: set<int>)
    requires n < |stream| && ByItem(stream)
    ensures Known(stream[..n + 1], users, items)
            == if stream[n].user in users && stream[n].item in items then Known(stream[..n], users, items) + [stream[n]]
               else Known(stream[..n], users, items)
    ensures ByItem(Known(stream[..n + 1], users, items))
  {
    assert stream[..n + 1][..n] == stream[..n];
    KnownMembers(stream[..n + 1], users, items);
  }

  /**
   One group: every item of the group is pushed exactly once, with exactly the known feedback that
   names it; first the items with feedback, then the others. All known feedback is recorded.
   */
  method LoadGroup(group: seq<int>, stream: seq<Feedback>, users: set<int>, items: set<int>)
    returns (pushes: seq<Push>, added: seq<Feedback>)
    requires StrictlySorted(group) && ByItem(stream)
    requires forall f :: f in stream && f.item in items ==> f.item in group
    ensures added == Known(stream, users, items)
    ensures pushes == Active(group, added) + Idle(group, added)
    ensures multiset(pushes) == multiset(Wanted(group, added))
  {
    var buffer: seq<Feedback> := [];
    var g: nat := 0;
    var flags := seq(|group|, _ => false);
    pushes, added := [], [];
    for n := 0 to |stream|
      invariant added == Known(stream[..n], users, items)
      invariant Buffering(group, added, buffer, g, flags, pushes)
    {
      var f := stream[n];
      KnownSnoc(stream, n, users, items);
      if f.user !in users {
        continue;
      }
      if f.item !in items {
        continue;
      }
      assert f in stream;
      buffer, g, flags, pushes := AddRecord(group, f, buffer, g, flags, pushes, added);
      added := added + [f];
    }
    assert stream[..|stream|] == stream;
    pushes := Finish(group, buffer, g, flags, pushes, added);
    ActiveAndIdle(group, added);
  }

  // ---------- all groups ----------

  /** The feedback of a range of item ids, as the database returns it. */
  function Between(db: seq<Feedback>, low: int, high: int): seq<Feedback> {
    if db == [] then []
    else
      var before := Between(db[..|db| - 1], low, high);
      if low <= db[|db| - 1].item <= high then before + [db[|db| - 1]] else before
  }

  lemma {:induction false} BetweenMembers(db: seq<Feedback>, low: int, high: int)
    ensures forall f :: f in Between(db, low, high) ==> f in db && low <= f.item <= high
    ensures ByItem(db) ==> ByItem(Between(db, low, high))
  {
    if db != [] {
      BetweenMembers(db[..|db| - 1], low, high);
      assert db == db[..|db| - 1] + [db[|db| - 1]];
    }
  }

  lemma {:induction false} BetweenKeepsOwn(db: seq<Feedback>, low: int, high: int, users: set<int>, items: set<int>, item: int)
    requires low <= item <= high
    ensures Of(Known(Between(db, low, high), users, items), item) == Of(Known(db, users, items), item)
  {
    if db != [] {
      var before := db[..|db| - 1];
      var f := db[|db| - 1];
      assert db == before + [f];
      BetweenKeepsOwn(before, low, high, users, items, item);
      OfKnownSnoc(before, f, users, items, item);
      if low <= f.item <= high {
        OfKnownSnoc(Between(before, low, high), f, users, items, item);
      }
    }
  }

  lemma OfKnownSnoc(s: seq<Feedback>, f: Feedback, users: set<int>, items: set<int>, item: int)
    ensures Of(Known(s + [f], users, items), item)
            == if f.item == item && f.user in users && f.item in items then Of(Known(s, users, items), item) + [f]
               else Of(Known(s, users, items), item)
  {
    assert (s + [f])[..|s|] == s;
    OfSnoc(Known(s, users, items), f, item);
  }

  lemma {:induction false} WantedSame(items: seq<int>, a: seq<Feedback>, b: seq<Feedback>)
    requires forall x :: x in items ==> Of(a, x) == Of(b, x)
    ensures Wanted(items, a) == Wanted(items, b)
  {
    if items != [] {
      WantedSame(items[..|items| - 1], a, b);
    }
  }

  lemma {:induction false} WantedConcat(a: seq<int>, b: seq<int>, known: seq<Feedback>)
    ensures Wanted(a + b, known) == Wanted(a, known) + Wanted(b, known)
  {
    if b == [] {
      assert a + b == a;
    } else {
      assert (a + b)[..|a + b| - 1] == a + b[..|b| - 1];
      WantedConcat(a, b[..|b| - 1], known);
    }
  }

  /** Cuts a list into at most n non-empty chunks, in order, whose sizes differ by at most one. */
  method Split(a: seq<int>, n: nat) returns (chunks: seq<seq<int>>)
    requires n > 0
    ensures Flatten(chunks) == a && |chunks| == if n > |a| then |a| else n
    ensures forall c :: c in chunks ==> c != []
    ensures forall c, d :: c in chunks && d in chunks ==> |c| <= |d| + 1
  {
    chunks := [];
    if |a| == 0 {
      return;
    }
    var k := if n > |a| then |a| else n;
    var low, big := |a| / k, |a| % k;
    ChunksCoverAll(|a|, k);
    var j: nat := 0;
    for i := 0 to k
      invariant |chunks| == i && j == ChunkStart(i, low, big) <= |a| && Flatten(chunks) == a[..j]
      invariant forall c :: c in chunks ==> low <= |c| <= low + 1
    {
      var size := low + if i < big then 1 else 0;
      ChunkStartGrows(i + 1, k, low, big);
      FlattenSnoc(chunks, a[j..j + size]);
      assert a[..j + size] == a[..j] + a[j..j + size];
      chunks := chunks + [a[j..j + size]];
      j := j + size;
    }
    assert a[..|a|] == a;
  }

  lemma FlattenSnoc(chunks: seq<seq<int>>, c: seq<int>)
    ensures Flatten(chunks + [c]) == Flatten(chunks) + c
  {
    FlattenConcat(chunks, [c]);
    assert Flatten([c]) == c + Flatten([c][1..]);
  }

  /** Where chunk i starts: the first `big` chunks have one element more than `low`. */
  function ChunkStart(i: nat, low: nat, big: nat): nat {
    if i == 0 then 0 else ChunkStart(i - 1, low, big) + low + if i - 1 < big then 1 else 0
  }

  lemma {:induction false} ChunkStartIs(i: nat, low: nat, big: nat)
    ensures ChunkStart(i, low, big) == i * low + if i < big then i else big
  {
    if i > 0 {
      ChunkStartIs(i - 1, low, big);
      assert i * low == (i - 1) * low + low;
    }
  }

  lemma ChunksCoverAll(n: nat, k: nat)
    requires 0 < k <= n
    ensures ChunkStart(k, n / k, n % k) == n && n / k >= 1
  {
    ChunkStartIs(k, n / k, n % k);
    assert k * (n / k) + n % k == n;
  }

  lemma {:induction false} ChunkStartGrows(i: nat, k: nat, low: nat, big: nat)
    requires i <= k
    ensures ChunkStart(i, low, big) <= ChunkStart(k, low, big)
  {
    if i < k {
      ChunkStartGrows(i, k - 1, low, big);
    }
  }

  /**
   The whole step: over all groups, however many, every item is pushed exactly once and with exactly
   its own known feedback from the whole database, and exactly the known feedback enters the dataset.
   */
  method LoadFeedback(items: seq<int>, db: seq<Feedback>, users: set<int>, jobs: nat)
    returns (pushes: seq<Push>, added: seq<Feedback>)
    requires StrictlySorted(items) && ByItem(db) && jobs > 0
    ensures multiset(pushes) == multiset(Wanted(items, Known(db, users, IdSet(items))))
    ensures multiset(added) == multiset(Known(db, users, IdSet(items)))
    ensures forall f :: multiset(added)[f] == if f.user in users && f.item in items then multiset(db)[f] else 0
    ensures |pushes| == |items| && forall x :: x in items ==> exists p :: p in pushes && p.item == x
    ensures forall p :: p in pushes ==> p.item in items && OwnFeedback(p, db, users)
  {
    var known := IdSet(items);
    ghost var all := Known(db, users, known);
    pushes, added := [], [];
    var groups := Split(items, jobs);
    ghost var done: seq<int> := [];
    NothingKnown(db, users);
    for i := 0 to |groups|
      invariant done == Flatten(groups[..i]) && multiset(pushes) == multiset(Wanted(done, all))
      invariant multiset(added) == multiset(Known(db, users, IdSet(done)))
    {
      var more, found := LoadNext(items, groups, i, db, users, known, all);
      GroupAt(groups, i);
      WantedConcat(done, groups[i], all);
      KnownMore(added, found, items, done, groups[i], db, users);
      done := done + groups[i];
      pushes := pushes + more;
      added := added + found;
    }
    assert groups[..|groups|] == groups;
    EveryItem(pushes, items, all);
    forall f
      ensures multiset(added)[f] == if f.user in users && f.item in items then multiset(db)[f] else 0
    {
      KnownCount(db, users, known, f);
    }
    forall p | p in pushes
      ensures p.item in items && OwnFeedback(p, db, users)
    {
      OwnOfKnown(db, users, known, p.item);
    }
  }

  /** A push carries exactly the feedback of its item by known users. */
  ghost predicate OwnFeedback(p: Push, db: seq<Feedback>, users: set<int>) {
    forall f :: multiset(p.feedback)[f] == if f.item == p.item && f.user in users then multiset(db)[f] else 0
  }

  lemma {:induction false} KnownCount(db: seq<Feedback>, users: set<int>, items: set<int>, f: Feedback)
    ensures multiset(Known(db, users, items))[f] == if f.user in users && f.item in items then multiset(db)[f] else 0
  {
    if db != [] {
      KnownCount(db[..|db| - 1], users, items, f);
      assert db == db[..|db| - 1] + [db[|db| - 1]];
    }
  }

  lemma {:induction false} OfCount(known: seq<Feedback>, item: int, f: Feedback)
    ensures multiset(Of(known, item))[f] == if f.item == item then multiset(known)[f] else 0
  {
    if known != [] {
      OfCount(known[..|known| - 1], item, f);
      assert known == known[..|known| - 1] + [known[|known| - 1]];
    }
  }

  lemma OwnOfKnown(db: seq<Feedback>, users: set<int>, items: set<int>, item: int)
    requires item in items
    ensures OwnFeedback(Push(item, Of(Known(db, users, items), item)), db, users)
  {
    forall f
      ensures multiset(Of(Known(db, users, items), item))[f] == if f.item == item && f.user in users then multiset(db)[f] else 0
    {
      OfCount(Known(db, users, items), item, f);
      KnownCount(db, users, items, f);
    }
  }

  lemma {:induction false} WantedMembers(items: seq<int>, known: seq<Feedback>)
    ensures |Wanted(items, known)| == |items|
    ensures forall p :: p in Wanted(items, known) ==> p.item in items && p == Push(p.item, Of(known, p.item))
    ensures forall x :: x in items ==> Push(x, Of(known, x)) in Wanted(items, known)
  {
    if items != [] {
      WantedMembers(items[..|items| - 1], known);
      assert items == items[..|items| - 1] + [items[|items| - 1]];
    }
  }

  lemma EveryItem(pushes: seq<Push>, items: seq<int>, known: seq<Feedback>)
    requires multiset(pushes) == multiset(Wanted(items, known))
    ensures |pushes| == |items|
    ensures forall p :: p in pushes ==> p.item in items && p == Push(p.item, Of(known, p.item))
    ensures forall x :: x in items ==> exists p :: p in pushes && p.item == x
  {
    WantedMembers(items, known);
    assert |multiset(pushes)| == |pushes| && |multiset(Wanted(items, known))| == |Wanted(items, known)|;
    forall p | p in pushes
      ensures p in Wanted(items, known)
    {
      assert p in multiset(pushes);
    }
    forall x | x in items
      ensures exists p :: p in pushes && p.item == x
    {
      assert Push(x, Of(known, x)) in multiset(pushes);
    }
  }

  lemma {:induction false} NothingKnown(db: seq<Feedback>, users: set<int>)
    ensures Known(db, users, IdSet([])) == []
  {
    if db != [] {
      NothingKnown(db[..|db| - 1], users);
    }
  }

  /** Feedback of two disjoint groups of items is the feedback of one plus that of the other. */
  lemma {:induction false} KnownUnion(db: seq<Feedback>, users: set<int>, a: set<int>, b: set<int>)
    requires a !! b
    ensures multiset(Known(db, users, a + b)) == multiset(Known(db, users, a)) + multiset(Known(db, users, b))
  {
    if db != [] {
      KnownUnion(db[..|db| - 1], users, a, b);
    }
  }

  lemma KnownMore(added: seq<Feedback>, found: seq<Feedback>, items: seq<int>, done: seq<int>, group: seq<int>,
                                     db: seq<Feedback>, users: set<int>)
    requires StrictlySorted(items) && done + group <= items
    requires multiset(added) == multiset(Known(db, users, IdSet(done)))
    requires multiset(found) == multiset(Known(db, users, IdSet(group)))
    ensures multiset(added + found) == multiset(Known(db, users, IdSet(done + group)))
  {
    forall i, j | 0 <= i < |done| && 0 <= j < |group|
      ensures done[i] != group[j]
    {
      assert items[i] == (done + group)[i] && items[|done| + j] == (done + group)[|done| + j];
    }
    assert IdSet(done + group) == IdSet(done) + IdSet(group);
    KnownUnion(db, users, IdSet(done), IdSet(group));
  }

  /** Of a range of the database the known feedback is that of the items in the range. */
  lemma {:induction false} KnownOfRange(db: seq<Feedback>, low: int, high: int, users: set<int>, known: set<int>, group: set<int>)
    requires forall x :: x in group <==> x in known && low <= x <= high
    ensures Known(Between(db, low, high), users, known) == Known(db, users, group)
  {
    if db != [] {
      var before, f := db[..|db| - 1], db[|db| - 1];
      KnownOfRange(before, low, high, users, known, group);
      if low <= f.item <= high {
        assert (Between(before, low, high) + [f])[..|Between(before, low, high)|] == Between(before, low, high);
      }
    }
  }

  lemma {:induction false} GroupAt(groups: seq<seq<int>>, i: nat)
    requires i < |groups|
    ensures Flatten(groups[..i + 1]) == Flatten(groups[..i]) + groups[i]
    ensures |Flatten(groups[..i])| + |groups[i]| <= |Flatten(groups)|
    ensures Flatten(groups)[|Flatten(groups[..i])|..|Flatten(groups[..i])| + |groups[i]|] == groups[i]
    ensures groups[i] in groups && Flatten(groups[..i]) + groups[i] <= Flatten(groups)
  {
    assert groups == groups[..i + 1] + groups[i + 1..];
    FlattenConcat(groups[..i + 1], groups[i + 1..]);
    assert groups[..i + 1] == groups[..i] + [groups[i]];
    FlattenConcat(groups[..i], [groups[i]]);
    assert Flatten([groups[i]]) == groups[i];
  }

  function IdSet(items: seq<int>): set<int> {
    set x | x in items
  }

  /** The i-th group is a stretch of the item list. */
  method LoadNext(items: seq<int>, groups: seq<seq<int>>, i: nat, db: seq<Feedback>, users: set<int>, known: set<int>,
                  ghost all: seq<Feedback>)
    returns (pushes: seq<Push>, added: seq<Feedback>)
    requires StrictlySorted(items) && ByItem(db) && known == IdSet(items) && all == Known(db, users, known)
    requires Flatten(groups) == items && i < |groups| && groups[i] != []
    ensures multiset(pushes) == multiset(Wanted(groups[i], all)) && added == Known(db, users, IdSet(groups[i]))
  {
    GroupAt(groups, i);
    pushes, added := LoadSlice(items, |Flatten(groups[..i])|, groups[i], db, users, known, all);
  }

  /** One group of the whole step, reading its own range of the database. */
  method LoadSlice(items: seq<int>, ghost at: nat, group: seq<int>, db: seq<Feedback>, users: set<int>, known: set<int>,
                   ghost all: seq<Feedback>)
    returns (pushes: seq<Push>, added: seq<Feedback>)
    requires StrictlySorted(items) && ByItem(db) && known == IdSet(items) && all == Known(db, users, known)
    requires group != [] && at + |group| <= |items| && items[at..at + |group|] == group
    ensures multiset(pushes) == multiset(Wanted(group, all)) && added == Known(db, users, IdSet(group))
  {
    var low, high := group[0], group[|group| - 1];
    var stream := Between(db, low, high);
    BetweenMembers(db, low, high);
    forall x | x in group
      ensures Of(Known(Between(db, low, high), users, known), x) == Of(Known(db, users, known), x)
    {
      BetweenKeepsOwn(db, low, high, users, known, x);
    }
    WantedSame(group, Known(Between(db, low, high), users, known), Known(db, users, known));
    KnownOfRange(db, low, high, users, known, IdSet(group));
    pushes, added := LoadGroup(group, stream, users, known);
  }

  /** In a sorted list, a listed id between the ends of a stretch lies in the stretch. */
  lemma InRange(items: seq<int>, a: nat, b: nat, x: int)
    requires StrictlySorted(items) && a < b <= |items| && x in items && items[a] <= x <= items[b - 1]
    ensures x in items[a..b]
  {
    var i :| 0 <= i < |items| && items[i] == x;
    assert a <= i < b;
    assert items[a..b][i - a] == x;
  }
}
