/**
 Non-personalised recommendation: one bounded heap per category, and one for all items under the empty
 category. Popping merges the heaps into a single list of items tagged with their categories.
 */
module Leaderboards {
  import opened Seqs

  datatype Elem = Elem(value: string, weight: real)

  /** A successful push: an item that is visible and passed the filter, with its score. */
  datatype Item = Item(id: string, score: real, categories: seq<string>)

  // ---------- a bounded heap ----------

  function Min(a: nat, b: nat): nat { if a <= b then a else b }

  /** `kept` are k best of the pushed elements, ties resolved somehow. */
  ghost predicate IsTopK(pushed: seq<Elem>, kept: seq<Elem>, k: nat) {
    && multiset(kept) <= multiset(pushed)
    && |kept| == Min(k, |pushed|)
    && (forall x, y :: x in kept && y in multiset(pushed) - multiset(kept) ==> y.weight <= x.weight)
  }

  predicate IsLeast(h: seq<Elem>, i: nat) {
    i < |h| && forall j :: 0 <= j < |h| ==> h[i].weight <= h[j].weight
  }

  lemma {:induction false} LeastExists(h: seq<Elem>) returns (i: nat)
    requires h != []
    ensures IsLeast(h, i)
  {
    if |h| == 1 {
      i := 0;
    } else {
      var j := LeastExists(h[1..]);
      i := if h[0].weight <= h[1..][j].weight then 0 else j + 1;
      assert forall m :: 1 <= m < |h| ==> h[m] == h[1..][m - 1];
    }
  }

  function Without(h: seq<Elem>, i: nat): seq<Elem>
    requires i < |h|
  {
    h[..i] + h[i + 1..]
  }

  lemma BagSwap(pushed: multiset<Elem>, kept: multiset<Elem>, now: multiset<Elem>, e: Elem, least: Elem)
    requires kept <= pushed && kept + multiset{e} == now + multiset{least}
    ensures now <= pushed + multiset{e}
    ensures (pushed + multiset{e}) - now == (pushed - kept) + multiset{least}
  {
    forall x
      ensures kept[x] + multiset{e}[x] == now[x] + multiset{least}[x]
    {
      assert (kept + multiset{e})[x] == (now + multiset{least})[x];
    }
  }

  /** A push beyond the bound drops a least element. */
  lemma TopKFull(pushed: seq<Elem>, kept: seq<Elem>, k: nat, e: Elem, i: nat)
    requires IsTopK(pushed, kept, k) && |kept| == k && IsLeast(kept + [e], i)
    ensures IsTopK(pushed + [e], Without(kept + [e], i), k)
  {
    var grown := kept + [e];
    var now := Without(grown, i);
    assert grown == grown[..i] + [grown[i]] + grown[i + 1..];
    var dropped := multiset(pushed) - multiset(kept);
    assert multiset(pushed + [e]) == multiset(pushed) + multiset{e};
    assert multiset(grown) == multiset(kept) + multiset{e};
    BagSwap(multiset(pushed), multiset(kept), multiset(now), e, grown[i]);
    forall x, y | x in now && y in dropped + multiset{grown[i]}
      ensures y.weight <= x.weight
    {
      assert x in grown;
      var j :| 0 <= j < |grown| && grown[j] == x;
      assert grown[i].weight <= grown[j].weight;
      if y in dropped {
        if i < |kept| {
          assert grown[i] in kept;
        } else {
          assert now == kept;
        }
      }
    }
  }

  method PushHeap(h: seq<Elem>, k: nat, e: Elem, ghost pushed: seq<Elem>) returns (r: seq<Elem>)
    requires IsTopK(pushed, h, k)
    ensures IsTopK(pushed + [e], r, k)
  {
    r := h + [e];
    if |r| > k {
      ghost var least := LeastExists(r);
      assert 0 <= least < |r| && IsLeast(r, least);
      var i :| 0 <= i < |r| && IsLeast(r, i);
      TopKFull(pushed, h, k, e, i);
      r := Without(r, i);
    } else {
      assert |multiset(pushed) - multiset(h)| == |pushed| - |h| == 0;
      assert multiset(pushed + [e]) - multiset(h + [e]) == multiset(pushed) - multiset(h);
    }
  }

  // ---------- the heaps of all categories ----------

  function Copies(n: nat, e: Elem): (r: seq<Elem>)
    ensures |r| == n && forall x :: x in r ==> x == e
  {
    if n == 0 then [] else Copies(n - 1, e) + [e]
  }

  /** How often an item enters the heap of a category: once per mention, and once more under "". */
  function Entries(item: Item, c: string): nat {
    multiset(item.categories)[c] + if c == "" then 1 else 0
  }

  /** Everything pushed to the heap of one category. */
  function Tagged(items: seq<Item>, c: string): seq<Elem> {
    if items == [] then []
    else
      var last := items[|items| - 1];
      Tagged(items[..|items| - 1], c) + Copies(Entries(last, c), Elem(last.id, last.score))
  }

  /** One entry of the merged list. */
  datatype Ranked = Ranked(id: string, score: real, categories: seq<string>)

  /** How many elements of a heap are entries of one item. */
  function Mentions(h: seq<Elem>, id: string): nat {
    if h == [] then 0 else Mentions(h[..|h| - 1], id) + if h[|h| - 1].value == id then 1 else 0
  }

  function HeapOf(heaps: map<string, seq<Elem>>, c: string): seq<Elem> {
    if c in heaps then heaps[c] else []
  }

  /** Every heap holds a top K of what was pushed to it. */
  ghost predicate AllTopK(heaps: map<string, seq<Elem>>, items: seq<Item>, k: nat) {
    "" in heaps && forall c :: IsTopK(Tagged(items, c), HeapOf(heaps, c), k)
  }

  class NonPersonalized {
    const heapSize: nat
    var heaps: map<string, seq<Elem>>
    ghost var items: seq<Item>   // pushed since the heaps were last empty

    ghost predicate Valid()
      reads this
    {
      AllTopK(heaps, items, heapSize)
    }

    constructor (n: nat)
      ensures Valid() && items == [] && heapSize == n
    {
      heapSize := n;
      heaps := map["" := []];
      items := [];
    }

    /** `score` is missing when the item is hidden, filtered out, or its expressions fail. */
    method Push(id: string, categories: seq<string>, score: Option<real>)
      requires Valid()
      modifies this
      ensures Valid()
      ensures items == if score.Some? then old(items) + [Item(id, score.value, categories)] else old(items)
    {
      if score.None? {
        return;
      }
      var e := Elem(id, score.value);
      ghost var before := items;
      ghost var bare := before + [Item(id, score.value, [])];
      forall c: string
        ensures OneMore(before, bare, "", e, c)
      {
        TaggedBare(before, id, score.value, c);
      }
      PushEntry("", e, bare);
      for i := 0 to |categories|
        invariant items == before + [Item(id, score.value, categories[..i])]
        invariant Valid()
      {
        assert categories[..i + 1] == categories[..i] + [categories[i]];
        ghost var next := before + [Item(id, score.value, categories[..i + 1])];
        forall c: string
          ensures OneMore(items, next, categories[i], e, c)
        {
          TaggedOneMore(before, id, score.value, categories[..i], categories[i], c);
        }
        PushEntry(categories[i], e, next);
      }
      assert categories[..|categories|] == categories;
    }

    /** One entry in the heap of one category, which is created if it is not there. */
    method PushEntry(group: string, e: Elem, ghost next: seq<Item>)
      requires Valid() && forall c :: OneMore(items, next, group, e, c)
      modifies this
      ensures Valid() && items == next
    {
      assert IsTopK(Tagged(items, group), HeapOf(heaps, group), heapSize);
      var h := PushHeap(HeapOf(heaps, group), heapSize, e, Tagged(items, group));
      forall c: string
        ensures IsTopK(Tagged(next, c), HeapOf(heaps[group := h], c), heapSize)
      {
        assert OneMore(items, next, group, e, c);
        assert IsTopK(Tagged(items, c), HeapOf(heaps, c), heapSize);
      }
      heaps := heaps[group := h];
      items := next;
    }

    /**
     Drains all heaps, in any order of categories, into one list: every item once, by falling score,
     tagged with every category as often as that heap mentioned it, and with a weight it was pushed with.
     */
    method PopAll() returns (result: seq<Ranked>)
      requires Valid()
      modifies this
      ensures Valid() && items == [] && heaps.Keys == old(heaps).Keys
      ensures ByScore(result) && OncePerId(result)
      ensures forall r :: r in result ==> Weighted(old(heaps), r)
      ensures forall id, c :: ListedTags(result, id, c) == Mentions(HeapOf(old(heaps), c), id)
    {
      var scores := MergeAll(heaps);
      result := SortByScore(scores);
      forall id, c
        ensures ListedTags(result, id, c) == Mentions(HeapOf(heaps, c), id)
      {
        TagsListed(scores, result, id, c);
      }
      heaps := map c | c in heaps :: [];
      items := [];
    }
  }

  /** The merged entries of all heaps, visited in any order. */
  method MergeAll(heaps: map<string, seq<Elem>>) returns (scores: map<string, Ranked>)
    ensures forall id :: id in scores ==> scores[id].id == id && Weighted(heaps, scores[id])
    ensures forall id, c :: Tags(scores, id, c) == Mentions(HeapOf(heaps, c), id)
  {
    scores := map[];
    var todo := heaps.Keys;
    while todo != {}
      invariant todo <= heaps.Keys
      invariant forall id, c :: Tags(scores, id, c) == if c in todo then 0 else Mentions(HeapOf(heaps, c), id)
      invariant forall id :: id in scores ==> scores[id].id == id && Weighted(heaps, scores[id])
      decreases todo
    {
      var c :| c in todo;
      ghost var before := scores;
      scores := MergeHeap(scores, c, heaps[c]);
      forall id | id in scores
        ensures Weighted(heaps, scores[id])
      {
        if id in before && before[id].score == scores[id].score {
          assert Weighted(heaps, before[id]);
        } else {
          assert Elem(id, scores[id].score) in heaps[c];
        }
      }
      todo := todo - {c};
    }
  }

  /** Some heap holds an element with this id and this score. */
  ghost predicate Weighted(heaps: map<string, seq<Elem>>, r: Ranked) {
    exists c :: c in heaps && Elem(r.id, r.score) in heaps[c]
  }

  ghost predicate ByScore(s: seq<Ranked>) {
    forall i, j :: 0 <= i < j < |s| ==> s[i].score >= s[j].score
  }

  ghost predicate OncePerId(s: seq<Ranked>) {
    forall i, j :: 0 <= i < j < |s| ==> s[i].id != s[j].id
  }

  /** How often an item is tagged with a category, among the merged entries. */
  function Tags(scores: map<string, Ranked>, id: string, c: string): nat {
    if id in scores then multiset(scores[id].categories)[c] else 0
  }

  /** The same in a list. */
  function ListedTags(s: seq<Ranked>, id: string, c: string): nat {
    if s == [] then 0
    else ListedTags(s[..|s| - 1], id, c) + if s[|s| - 1].id == id then multiset(s[|s| - 1].categories)[c] else 0
  }

  lemma {:induction false} ListedOnce(s: seq<Ranked>, i: nat, c: string)
    requires i < |s| && OncePerId(s)
    ensures ListedTags(s, s[i].id, c) == multiset(s[i].categories)[c]
  {
    if i == |s| - 1 {
      ListedNever(s[..i], s[i].id, c);
    } else {
      ListedOnce(s[..|s| - 1], i, c);
    }
  }

  lemma {:induction false} ListedNever(s: seq<Ranked>, id: string, c: string)
    requires forall r :: r in s ==> r.id != id
    ensures ListedTags(s, id, c) == 0
  {
    if s != [] {
      ListedNever(s[..|s| - 1], id, c);
    }
  }

  /** The list holds exactly the entries of the map. */
  ghost predicate Lists(scores: map<string, Ranked>, s: seq<Ranked>) {
    && (forall r :: r in s ==> r.id in scores && scores[r.id] == r)
    && (forall id :: id in scores ==> scores[id] in s)
  }

  lemma TagsListed(scores: map<string, Ranked>, s: seq<Ranked>, id: string, c: string)
    requires Lists(scores, s) && OncePerId(s) && forall n :: n in scores ==> scores[n].id == n
    ensures ListedTags(s, id, c) == Tags(scores, id, c)
  {
    if id in scores {
      var i :| 0 <= i < |s| && s[i] == scores[id];
      ListedOnce(s, i, c);
    } else {
      ListedNever(s, id, c);
    }
  }

  /** Adds the elements of one heap to the merged entries. */
  method MergeHeap(start: map<string, Ranked>, category: string, h: seq<Elem>) returns (scores: map<string, Ranked>)
    requires forall id :: id in start ==> start[id].id == id
    ensures forall id :: id in scores ==> scores[id].id == id
    ensures forall id, c :: Tags(scores, id, c) == Tags(start, id, c) + if c == category then Mentions(h, id) else 0
    ensures forall id :: id in scores ==>
      (id in start && scores[id].score == start[id].score) || Elem(id, scores[id].score) in h
  {
    scores := start;
    assert forall id :: Mentions(h[..0], id) == 0;
    for i := 0 to |h|
      invariant forall id :: id in scores ==> scores[id].id == id
      invariant forall id, c :: Tags(scores, id, c) == Tags(start, id, c) + if c == category then Mentions(h[..i], id) else 0
      invariant forall id :: id in scores ==>
        (id in start && scores[id].score == start[id].score) || Elem(id, scores[id].score) in h
    {
      assert h[..i + 1][..i] == h[..i];
      var e := h[i];
      ghost var before := scores;
      if e.value !in scores {
        scores := scores[e.value := Ranked(e.value, e.weight, [category])];
        assert e == Elem(e.value, e.weight);
      } else {
        var r := scores[e.value];
        scores := scores[e.value := r.(categories := r.categories + [category])];
      }
      forall id, c
        ensures Tags(scores, id, c) == Tags(before, id, c) + if id == e.value && c == category then 1 else 0
      {
      }
    }
    assert h[..|h|] == h;
  }

  function Inserted(s: seq<Ranked>, r: Ranked): seq<Ranked> {
    if s == [] || r.score > s[0].score then [r] + s else [s[0]] + Inserted(s[1..], r)
  }

  lemma {:induction false} InsertedKeepsOrder(s: seq<Ranked>, r: Ranked)
    requires ByScore(s)
    ensures ByScore(Inserted(s, r))
    ensures forall x :: x in Inserted(s, r) <==> x in s || x == r
  {
    if s != [] && r.score <= s[0].score {
      InsertedKeepsOrder(s[1..], r);
      assert s == [s[0]] + s[1..];
      forall x | x in Inserted(s[1..], r)
        ensures x.score <= s[0].score
      {
        if x in s[1..] {
          var i :| 0 <= i < |s| - 1 && s[1..][i] == x;
          assert s[i + 1] == x;
        }
      }
    }
  }

  lemma {:induction false} InsertedKeepsIds(s: seq<Ranked>, r: Ranked)
    requires OncePerId(s) && forall x :: x in s ==> x.id != r.id
    ensures OncePerId(Inserted(s, r))
    ensures forall x :: x in Inserted(s, r) ==> x in s || x == r
  {
    if s != [] && r.score <= s[0].score {
      InsertedKeepsIds(s[1..], r);
      forall x | x in s[1..]
        ensures x.id != s[0].id
      {
        var i :| 0 <= i < |s| - 1 && s[1..][i] == x;
        assert s[i + 1] == x;
      }
      assert s[0] in s;
    }
  }

  /** All entries, by falling score; entries with equal scores come in any order. */
  method SortByScore(scores: map<string, Ranked>) returns (result: seq<Ranked>)
    requires forall id :: id in scores ==> scores[id].id == id
    ensures ByScore(result) && OncePerId(result) && Lists(scores, result)
  {
    result := [];
    var todo := scores.Keys;
    while todo != {}
      invariant todo <= scores.Keys && ByScore(result) && OncePerId(result)
      invariant forall r :: r in result ==> r.id in scores && r.id !in todo && scores[r.id] == r
      invariant forall id :: id in scores && id !in todo ==> scores[id] in result
      decreases todo
    {
      var id :| id in todo;
      InsertedKeepsOrder(result, scores[id]);
      InsertedKeepsIds(result, scores[id]);
      result := Inserted(result, scores[id]);
      todo := todo - {id};
    }
  }

  /** From `items` to `next` the category `group` gains the entry e and the others gain nothing. */
  ghost predicate OneMore(items: seq<Item>, next: seq<Item>, group: string, e: Elem, c: string) {
    Tagged(next, c) == if c == group then Tagged(items, c) + [e] else Tagged(items, c)
  }

  lemma TaggedBare(before: seq<Item>, id: string, score: real, c: string)
    ensures OneMore(before, before + [Item(id, score, [])], "", Elem(id, score), c)
  {
    assert Copies(1, Elem(id, score)) == [Elem(id, score)];
    assert Tagged(before, c) + [] == Tagged(before, c);
  }

  lemma TaggedOneMore(before: seq<Item>, id: string, score: real, done: seq<string>, group: string, c: string)
    ensures OneMore(before + [Item(id, score, done)], before + [Item(id, score, done + [group])], group, Elem(id, score), c)
  {
    var a, b := Item(id, score, done), Item(id, score, done + [group]);
    if c == group {
      assert Copies(Entries(b, c), Elem(id, score)) == Copies(Entries(a, c), Elem(id, score)) + [Elem(id, score)];
      ConcatAssoc(Tagged(before, c), Copies(Entries(a, c), Elem(id, score)), [Elem(id, score)]);
    }
  }

  // ---------- distinct items ----------

  ghost predicate DistinctItems(items: seq<Item>) {
    forall i, j :: 0 <= i < j < |items| ==> items[i].id != items[j].id
  }

  predicate Belongs(item: Item, c: string) {
    c == "" || c in item.categories
  }

  /** The items of one category, or all items. */
  function Members(items: seq<Item>, c: string): seq<Item> {
    if items == [] then []
    else
      var before, last := Members(items[..|items| - 1], c), items[|items| - 1];
      if Belongs(last, c) then before + [last] else before
  }

  /** No item enters the heap of c twice: it names c once, and "" not at all when c is "". */
  ghost predicate EntersOnce(items: seq<Item>, c: string) {
    forall m :: m in items ==> Entries(m, c) <= 1
  }

  ghost predicate Solo(h: seq<Elem>) {
    forall i, j :: 0 <= i < j < |h| ==> h[i].value != h[j].value
  }

  /**
   `h` is a true top K of the items of a category: it holds min(K, their number) of them, each once and
   with its own score, and every one that is missing scores at most as much as every one that is there.
   */
  ghost predicate TrueTop(items: seq<Item>, c: string, h: seq<Elem>, k: nat) {
    && |h| == Min(k, |Members(items, c)|) && Solo(h)
    && (forall e :: e in h ==> exists m :: m in items && Belongs(m, c) && e == Elem(m.id, m.score))
    && (forall m, e :: m in items && Belongs(m, c) && e in h && Elem(m.id, m.score) !in h ==> m.score <= e.weight)
  }

  /** Whatever is in a heap is an item of the category with its own score. */
  lemma {:induction false} TaggedOwn(items: seq<Item>, c: string)
    ensures forall e :: e in Tagged(items, c) ==> exists m :: m in items && Belongs(m, c) && e == Elem(m.id, m.score)
  {
    if items != [] {
      var before, last := items[..|items| - 1], items[|items| - 1];
      assert items == before + [last];
      TaggedOwn(before, c);
    }
  }

  /** An element of a top K is an item of the category with its own score. */
  lemma KeptOwn(items: seq<Item>, h: seq<Elem>, c: string, k: nat, e: Elem) returns (m: Item)
    requires e in h && IsTopK(Tagged(items, c), h, k)
    ensures m in items && Belongs(m, c) && e == Elem(m.id, m.score)
  {
    assert e in multiset(h);
    assert e in Tagged(items, c) by {
      assert e in multiset(Tagged(items, c));
    }
    TaggedOwn(items, c);
    m :| m in items && Belongs(m, c) && e == Elem(m.id, m.score);
  }

  lemma OthersDiffer(items: seq<Item>, before: seq<Item>, last: Item, c: string)
    requires items == before + [last] && DistinctItems(items)
    ensures DistinctItems(before) && forall e :: e in Tagged(before, c) ==> e.value != last.id
  {
    TaggedOwn(before, c);
    forall i, j | 0 <= i < j < |before|
      ensures before[i].id != before[j].id
    {
      assert items[i].id != items[j].id;
    }
    forall m | m in before
      ensures m.id != last.id
    {
      var i :| 0 <= i < |before| && before[i] == m;
      assert items[i].id != items[|items| - 1].id;
    }
  }

  lemma {:induction false} MentionedOnce(h: seq<Elem>, id: string)
    requires Solo(h)
    ensures Mentions(h, id) <= 1 && (Mentions(h, id) == 1 <==> exists e :: e in h && e.value == id)
  {
    if h != [] {
      MentionedOnce(h[..|h| - 1], id);
      assert h == h[..|h| - 1] + [h[|h| - 1]];
    }
  }

  lemma CountTwice(h: seq<Elem>, i: nat, j: nat)
    requires i < j < |h| && h[i] == h[j]
    ensures multiset(h)[h[i]] >= 2
  {
    assert h == h[..i] + [h[i]] + h[i + 1..j] + [h[j]] + h[j + 1..];
  }

  /** After pushes of distinct items that enter the heap of c once, that heap is a true top K of c. */
  lemma TrueTopK(items: seq<Item>, h: seq<Elem>, k: nat, c: string)
    requires DistinctItems(items) && EntersOnce(items, c) && IsTopK(Tagged(items, c), h, k)
    ensures TrueTop(items, c, h, k)
  {
    KeptSolo(items, h, c, k);
    ListedTopK(items, h, h, k, c);
  }

  lemma {:induction false} TaggedCount(items: seq<Item>, c: string, m: Item)
    requires m in items
    ensures multiset(Tagged(items, c))[Elem(m.id, m.score)] >= Entries(m, c)
  {
    var before, last := items[..|items| - 1], items[|items| - 1];
    assert items == before + [last];
    if m == last {
      CopiesCount(Entries(m, c), Elem(m.id, m.score));
    } else {
      TaggedCount(before, c, m);
    }
  }

  lemma {:induction false} CopiesCount(n: nat, e: Elem)
    ensures multiset(Copies(n, e))[e] == n
  {
    if n > 0 {
      CopiesCount(n - 1, e);
    }
  }

  lemma {:induction false} MentionsCount(h: seq<Elem>, e: Elem)
    ensures Mentions(h, e.value) >= multiset(h)[e]
  {
    if h != [] {
      MentionsCount(h[..|h| - 1], e);
      assert h == h[..|h| - 1] + [h[|h| - 1]];
    }
  }

  /** An item that enters a heap twice is in there twice, if the heap has room for everything. */
  lemma EntersTwice(items: seq<Item>, h: seq<Elem>, k: nat, c: string, m: Item)
    requires IsTopK(Tagged(items, c), h, k) && |Tagged(items, c)| <= k && m in items && Entries(m, c) >= 2
    ensures Mentions(h, m.id) >= 2
  {
    assert |multiset(Tagged(items, c)) - multiset(h)| == 0;
    assert multiset(Tagged(items, c)) == multiset(h) + (multiset(Tagged(items, c)) - multiset(h));
    TaggedCount(items, c, m);
    MentionsCount(h, Elem(m.id, m.score));
  }

  /**
   The exact condition, category by category: the heap of c is a true top K for every K if and only if
   no pushed item enters it twice.
   */
  lemma TrueTopKExactly(items: seq<Item>, c: string)
    requires DistinctItems(items)
    ensures EntersOnce(items, c) <==> forall k, h :: IsTopK(Tagged(items, c), h, k) ==> TrueTop(items, c, h, k)
  {
    if EntersOnce(items, c) {
      forall k, h | IsTopK(Tagged(items, c), h, k)
        ensures TrueTop(items, c, h, k)
      {
        TrueTopK(items, h, k, c);
      }
    } else {
      var m :| m in items && Entries(m, c) >= 2;
      var all := Tagged(items, c);
      assert IsTopK(all, all, |all|);
      EntersTwice(items, all, |all|, c, m);
      if Solo(all) {
        MentionedOnce(all, m.id);
      }
      assert !TrueTop(items, c, all, |all|);
    }
  }

  /** The harm: an item that names its category twice pushes a lower one out of a heap with room for two items. */
  lemma RepeatEvicts(items: seq<Item>, a: Item, b: Item, c: string, h: seq<Elem>)
    requires DistinctItems(items) && a in items && b in items && b.score < a.score
    requires Entries(a, c) >= 2 && Entries(b, c) >= 1 && IsTopK(Tagged(items, c), h, 2)
    ensures Mentions(h, b.id) == 0
  {
    var x, y := Elem(a.id, a.score), Elem(b.id, b.score);
    TaggedCount(items, c, a);
    TaggedCount(items, c, b);
    MoreThanTwo(Tagged(items, c), x, y);
    if y in h {
      OneOther(h, x, y);
    }
    forall e | e in h
      ensures e.value != b.id
    {
      var m := KeptOwn(items, h, c, 2, e);
      if e.value == b.id {
        SameItem(items, m, b);
      }
    }
    MentionedSome(h, b.id);
  }

  lemma OneOther(h: seq<Elem>, x: Elem, y: Elem)
    requires |h| == 2 && y in h && x != y
    ensures multiset(h)[x] <= 1
  {
    assert h == [h[0], h[1]];
    assert multiset(h) == multiset{h[0], h[1]};
  }

  lemma MoreThanTwo(s: seq<Elem>, x: Elem, y: Elem)
    requires multiset(s)[x] >= 2 && multiset(s)[y] >= 1 && x != y
    ensures |s| >= 3
  {
    assert multiset{x, x, y} <= multiset(s);
    assert multiset(s) == multiset{x, x, y} + (multiset(s) - multiset{x, x, y});
    assert |multiset(s)| >= 3;
  }

  /** Two pushes that show it in a popped list: the second item is missing from its category. */
  method NamedTwice(a: string, b: string, c: string) returns (result: seq<Ranked>)
    requires a != b
    ensures ListedTags(result, b, c) == 0
  {
    var board := new NonPersonalized(2);
    board.Push(a, [c, c], Some(2.0));
    board.Push(b, [c], Some(1.0));
    ghost var x, y := Item(a, 2.0, [c, c]), Item(b, 1.0, [c]);
    assert board.items == [x, y];
    NamedTwiceEvicts(board.items, board.heaps, x, y, c);
    result := board.PopAll();
  }

  lemma NamedTwiceEvicts(items: seq<Item>, heaps: map<string, seq<Elem>>, x: Item, y: Item, c: string)
    requires items == [x, y] && x.id != y.id && y.score < x.score && x.categories == [c, c] && y.categories == [c]
    requires AllTopK(heaps, items, 2)
    ensures Mentions(HeapOf(heaps, c), y.id) == 0
  {
    assert IsTopK(Tagged(items, c), HeapOf(heaps, c), 2);
    assert multiset([c, c])[c] == 2;
    RepeatEvicts(items, x, y, c, HeapOf(heaps, c));
  }

  // ---------- what comes out ----------

  /** The entries of a popped list that are tagged with c. */
  function ListedFor(s: seq<Ranked>, c: string): seq<Elem> {
    if s == [] then []
    else
      var before, last := ListedFor(s[..|s| - 1], c), s[|s| - 1];
      if c in last.categories then before + [Elem(last.id, last.score)] else before
  }

  lemma {:induction false} ListedForMembers(s: seq<Ranked>, c: string)
    ensures forall e :: e in ListedFor(s, c) <==> exists r :: r in s && c in r.categories && e == Elem(r.id, r.score)
    ensures OncePerId(s) ==> Solo(ListedFor(s, c))
  {
    if s != [] {
      var before, last := s[..|s| - 1], s[|s| - 1];
      assert s == before + [last];
      ListedForMembers(before, c);
      forall e | e in ListedFor(before, c) && OncePerId(s)
        ensures e.value != last.id
      {
        var r :| r in before && c in r.categories && e == Elem(r.id, r.score);
        var i :| 0 <= i < |before| && before[i] == r;
        assert s[i].id != s[|s| - 1].id;
      }
    }
  }

  lemma {:induction false} TaggedSome(s: seq<Ranked>, id: string, c: string)
    requires ListedTags(s, id, c) > 0
    ensures exists r :: r in s && r.id == id && c in r.categories
  {
    var before, last := s[..|s| - 1], s[|s| - 1];
    assert s == before + [last];
    if !(last.id == id && c in last.categories) {
      TaggedSome(before, id, c);
    }
  }

  /** A popped list carries every item with the score it was pushed with. */
  lemma OwnScore(items: seq<Item>, heaps: map<string, seq<Elem>>, k: nat, r: Ranked)
    requires AllTopK(heaps, items, k) && Weighted(heaps, r)
    ensures exists m :: m in items && m.id == r.id && m.score == r.score
  {
    var c :| c in heaps && Elem(r.id, r.score) in heaps[c];
    assert IsTopK(Tagged(items, c), HeapOf(heaps, c), k);
    var m := KeptOwn(items, heaps[c], c, k, Elem(r.id, r.score));
  }

  lemma SameItem(items: seq<Item>, m: Item, n: Item)
    requires DistinctItems(items) && m in items && n in items && m.id == n.id
    ensures m == n
  {
  }

  /** What a drain promises about the heaps it drained. */
  ghost predicate Drained(heaps: map<string, seq<Elem>>, result: seq<Ranked>) {
    && OncePerId(result)
    && (forall r :: r in result ==> Weighted(heaps, r))
    && (forall id, c :: ListedTags(result, id, c) == Mentions(HeapOf(heaps, c), id))
  }

  /** `listed` has the elements of a heap, each once. */
  ghost predicate OnceEach(h: seq<Elem>, listed: seq<Elem>) {
    Solo(listed) && forall e :: e in listed <==> e in h
  }

  lemma {:induction false} MentionedSome(h: seq<Elem>, id: string)
    ensures Mentions(h, id) > 0 <==> exists e :: e in h && e.value == id
  {
    if h != [] {
      MentionedSome(h[..|h| - 1], id);
      assert h == h[..|h| - 1] + [h[|h| - 1]];
    }
  }

  lemma ListedIsKept(items: seq<Item>, heaps: map<string, seq<Elem>>, k: nat, result: seq<Ranked>, c: string, r: Ranked)
    requires DistinctItems(items) && AllTopK(heaps, items, k) && Drained(heaps, result)
    requires r in result && Mentions(HeapOf(heaps, c), r.id) > 0
    ensures Elem(r.id, r.score) in HeapOf(heaps, c)
  {
    var h := HeapOf(heaps, c);
    assert IsTopK(Tagged(items, c), h, k);
    MentionedSome(h, r.id);
    var e :| e in h && e.value == r.id;
    var m := KeptOwn(items, h, c, k, e);
    OwnScore(items, heaps, k, r);
    var n :| n in items && n.id == r.id && n.score == r.score;
    SameItem(items, m, n);
  }

  /** The entries tagged with c are exactly the elements of its heap, each once. */
  lemma ListedAreKept(items: seq<Item>, heaps: map<string, seq<Elem>>, k: nat, result: seq<Ranked>, c: string)
    requires DistinctItems(items) && AllTopK(heaps, items, k) && Drained(heaps, result)
    ensures OnceEach(HeapOf(heaps, c), ListedFor(result, c))
  {
    var h := HeapOf(heaps, c);
    assert IsTopK(Tagged(items, c), h, k);
    ListedForMembers(result, c);
    forall e | e in ListedFor(result, c)
      ensures e in h
    {
      var r :| r in result && c in r.categories && e == Elem(r.id, r.score);
      var i :| 0 <= i < |result| && result[i] == r;
      ListedOnce(result, i, c);
      ListedIsKept(items, heaps, k, result, c, r);
    }
    forall e | e in h
      ensures e in ListedFor(result, c)
    {
      MentionedSome(h, e.value);
      TaggedSome(result, e.value, c);
      var r :| r in result && r.id == e.value && c in r.categories;
      ListedIsKept(items, heaps, k, result, c, r);
      KeptOnce(items, h, c, k, e, Elem(r.id, r.score));
    }
  }

  /** Elements of one heap with the same id are the same. */
  lemma KeptOnce(items: seq<Item>, h: seq<Elem>, c: string, k: nat, d: Elem, e: Elem)
    requires DistinctItems(items) && IsTopK(Tagged(items, c), h, k) && d in h && e in h && d.value == e.value
    ensures d == e
  {
    var m := KeptOwn(items, h, c, k, d);
    var n := KeptOwn(items, h, c, k, e);
    SameItem(items, m, n);
  }

  // ---------- when the list is a true top K ----------

  function ElemSet(h: seq<Elem>): set<Elem> {
    set e | e in h
  }

  lemma {:induction false} SoloSize(h: seq<Elem>)
    ensures |ElemSet(h)| <= |h|
    ensures Solo(h) ==> |h| == |ElemSet(h)|
  {
    if h != [] {
      var before, last := h[..|h| - 1], h[|h| - 1];
      assert h == before + [last];
      SoloSize(before);
      assert ElemSet(h) == ElemSet(before) + {last};
    }
  }

  /** The items of a category that are in a heap, each once. */
  function Listing(items: seq<Item>, c: string, h: seq<Elem>): seq<Elem> {
    if items == [] then []
    else
      var before, last := Listing(items[..|items| - 1], c, h), items[|items| - 1];
      if Belongs(last, c) && Elem(last.id, last.score) in h then before + [Elem(last.id, last.score)] else before
  }

  lemma {:induction false} ListingMembers(items: seq<Item>, c: string, h: seq<Elem>)
    requires DistinctItems(items)
    ensures forall e :: e in Listing(items, c, h) <==> e in h && exists m :: m in items && Belongs(m, c) && e == Elem(m.id, m.score)
    ensures Solo(Listing(items, c, h))
  {
    if items != [] {
      var before, last := items[..|items| - 1], items[|items| - 1];
      assert items == before + [last];
      OthersDiffer(items, before, last, c);
      ListingMembers(before, c, h);
      forall m | m in before
        ensures m.id != last.id
      {
        var i :| 0 <= i < |before| && before[i] == m;
        assert items[i].id != items[|items| - 1].id;
      }
      forall e | e in Listing(before, c, h)
        ensures e.value != last.id
      {
        var m :| m in before && Belongs(m, c) && e == Elem(m.id, m.score);
      }
    }
  }

  /** A heap that holds everything of a category lists exactly its items. */
  lemma {:induction false} ListingAll(items: seq<Item>, c: string, h: seq<Elem>)
    requires forall m :: m in items && Belongs(m, c) ==> Elem(m.id, m.score) in h
    ensures |Listing(items, c, h)| == |Members(items, c)|
  {
    if items != [] {
      assert items == items[..|items| - 1] + [items[|items| - 1]];
      ListingAll(items[..|items| - 1], c, h);
    }
  }

  /** The elements pushed to a category, as a set: one for each of its items. */
  lemma PushedSet(items: seq<Item>, c: string)
    requires DistinctItems(items)
    ensures forall m :: m in items && Belongs(m, c) ==> Elem(m.id, m.score) in Tagged(items, c)
    ensures |ElemSet(Tagged(items, c))| == |Members(items, c)| <= |Tagged(items, c)|
  {
    var all := Tagged(items, c);
    forall m | m in items && Belongs(m, c)
      ensures Elem(m.id, m.score) in all
    {
      TaggedCount(items, c, m);
      assert Elem(m.id, m.score) in multiset(all);
    }
    TaggedOwn(items, c);
    ListingMembers(items, c, all);
    ListingAll(items, c, all);
    SoloSize(Listing(items, c, all));
    assert ElemSet(Listing(items, c, all)) == ElemSet(all);
    SoloSize(all);
  }

  lemma {:induction false} TaggedExact(items: seq<Item>, c: string, m: Item)
    requires DistinctItems(items) && m in items
    ensures multiset(Tagged(items, c))[Elem(m.id, m.score)] == Entries(m, c)
  {
    var before, last := items[..|items| - 1], items[|items| - 1];
    assert items == before + [last];
    OthersDiffer(items, before, last, c);
    var x := Elem(m.id, m.score);
    CopiesCount(Entries(last, c), Elem(last.id, last.score));
    if m in before {
      TaggedExact(before, c, m);
      var i :| 0 <= i < |before| && before[i] == m;
      assert items[i].id != items[|items| - 1].id;
      assert x !in Copies(Entries(last, c), Elem(last.id, last.score));
    } else {
      assert x !in multiset(Tagged(before, c));
    }
  }

  /** Two different elements of a heap at the same id, or one twice, mean that an item entered twice. */
  lemma KeptSolo(items: seq<Item>, h: seq<Elem>, c: string, k: nat)
    requires DistinctItems(items) && IsTopK(Tagged(items, c), h, k)
    requires forall m :: m in items && Elem(m.id, m.score) in h ==> Entries(m, c) <= 1
    ensures Solo(h)
  {
    forall i, j | 0 <= i < j < |h|
      ensures h[i].value != h[j].value
    {
      if h[i].value == h[j].value {
        KeptOnce(items, h, c, k, h[i], h[j]);
        CountTwice(h, i, j);
        var m := KeptOwn(items, h, c, k, h[i]);
        TaggedExact(items, c, m);
      }
    }
  }

  /** An item that enters c twice scores strictly below every other item of c. */
  ghost predicate RepeatsLast(items: seq<Item>, c: string) {
    forall m, n :: m in items && n in items && m != n && Entries(m, c) >= 2 && Belongs(n, c) ==> m.score < n.score
  }

  /** If an item that enters twice is kept, everything of its category is. */
  lemma KeptRepeat(items: seq<Item>, h: seq<Elem>, c: string, k: nat, m: Item)
    requires DistinctItems(items) && RepeatsLast(items, c) && IsTopK(Tagged(items, c), h, k)
    requires m in items && Entries(m, c) >= 2 && Elem(m.id, m.score) in h
    ensures ElemSet(h) == ElemSet(Tagged(items, c))
  {
    var all := Tagged(items, c);
    forall e | e in all
      ensures e in h
    {
      TaggedOwn(items, c);
      var n :| n in items && Belongs(n, c) && e == Elem(n.id, n.score);
      if n != m {
        assert e.weight > Elem(m.id, m.score).weight;
        assert e !in multiset(all) - multiset(h);
        assert multiset(all)[e] > 0;
        assert multiset(h)[e] > 0;
      }
    }
    forall e | e in h
      ensures e in all
    {
      assert e in multiset(h) && e in multiset(all);
    }
  }

  lemma ListedSize(items: seq<Item>, h: seq<Elem>, listed: seq<Elem>, k: nat, c: string)
    requires DistinctItems(items) && RepeatsLast(items, c) && IsTopK(Tagged(items, c), h, k) && OnceEach(h, listed)
    ensures |listed| == Min(k, |Members(items, c)|)
  {
    PushedSet(items, c);
    SoloSize(h);
    SoloSize(listed);
    assert ElemSet(listed) == ElemSet(h);
    if m :| m in items && Entries(m, c) >= 2 && Elem(m.id, m.score) in h {
      KeptRepeat(items, h, c, k, m);
    } else {
      KeptSolo(items, h, c, k);
      forall e | e in h
        ensures e in Tagged(items, c)
      {
        assert e in multiset(h) && e in multiset(Tagged(items, c));
      }
      SubsetSize(ElemSet(h), ElemSet(Tagged(items, c)));
    }
  }

  /** A list of the elements of a heap, each once, is a true top K if repeated items come last. */
  lemma ListedTopK(items: seq<Item>, h: seq<Elem>, listed: seq<Elem>, k: nat, c: string)
    requires DistinctItems(items) && RepeatsLast(items, c) && IsTopK(Tagged(items, c), h, k) && OnceEach(h, listed)
    ensures TrueTop(items, c, listed, k)
  {
    ListedSize(items, h, listed, k, c);
    forall e | e in listed
      ensures exists m :: m in items && Belongs(m, c) && e == Elem(m.id, m.score)
    {
      var m := KeptOwn(items, h, c, k, e);
    }
    PushedSet(items, c);
    forall m, e | m in items && Belongs(m, c) && e in listed && Elem(m.id, m.score) !in listed
      ensures m.score <= e.weight
    {
      assert Elem(m.id, m.score) in multiset(Tagged(items, c)) - multiset(h);
    }
  }

  function Above(s: seq<Elem>, w: real): seq<Elem> {
    if s == [] then []
    else
      var before, last := Above(s[..|s| - 1], w), s[|s| - 1];
      if last.weight > w then before + [last] else before
  }

  lemma {:induction false} AboveCount(s: seq<Elem>, w: real, e: Elem)
    ensures multiset(Above(s, w))[e] == if e.weight > w then multiset(s)[e] else 0
  {
    if s != [] {
      AboveCount(s[..|s| - 1], w, e);
      assert s == s[..|s| - 1] + [s[|s| - 1]];
    }
  }

  /** A top K that keeps an item twice and everything above it, but nothing else. */
  function TwiceAndAbove(items: seq<Item>, c: string, m: Item): seq<Elem> {
    Above(Tagged(items, c), m.score) + [Elem(m.id, m.score), Elem(m.id, m.score)]
  }

  lemma TwiceAndAboveCount(items: seq<Item>, c: string, m: Item, e: Elem)
    ensures multiset(TwiceAndAbove(items, c, m))[e]
            == (if e.weight > m.score then multiset(Tagged(items, c))[e] else 0) + if e == Elem(m.id, m.score) then 2 else 0
  {
    AboveCount(Tagged(items, c), m.score, e);
    assert multiset([Elem(m.id, m.score), Elem(m.id, m.score)])[e] == if e == Elem(m.id, m.score) then 2 else 0;
  }

  lemma TwiceAndAboveIsTop(items: seq<Item>, c: string, m: Item)
    requires m in items && Entries(m, c) >= 2
    ensures IsTopK(Tagged(items, c), TwiceAndAbove(items, c, m), |TwiceAndAbove(items, c, m)|)
  {
    var h, all := TwiceAndAbove(items, c, m), Tagged(items, c);
    TaggedCount(items, c, m);
    forall e
      ensures multiset(h)[e] <= multiset(all)[e]
      ensures e in h ==> e.weight >= m.score
      ensures e in multiset(all) - multiset(h) ==> e.weight <= m.score
    {
      TwiceAndAboveCount(items, c, m, e);
      assert e in h ==> e in multiset(h);
    }
    assert multiset(all) == multiset(h) + (multiset(all) - multiset(h));
  }

  /** Every top K can be listed. */
  lemma ListingOnce(items: seq<Item>, c: string, k: nat, h: seq<Elem>)
    requires DistinctItems(items) && IsTopK(Tagged(items, c), h, k)
    ensures OnceEach(h, Listing(items, c, h)) && ElemSet(Listing(items, c, h)) <= ElemSet(Tagged(items, c))
  {
    ListingMembers(items, c, h);
    forall e | e in h
      ensures e in Listing(items, c, h) && e in Tagged(items, c)
    {
      var own := KeptOwn(items, h, c, k, e);
      assert e in multiset(h) && e in multiset(Tagged(items, c));
    }
  }

  /** If some item of c scores no more than an item that enters c twice, a top K makes a list that is no true top K. */
  lemma RepeatSpoils(items: seq<Item>, c: string, m: Item, n: Item) returns (k: nat, h: seq<Elem>, listed: seq<Elem>)
    requires DistinctItems(items) && m in items && n in items && m != n
    requires Entries(m, c) >= 2 && Belongs(n, c) && n.score <= m.score
    ensures IsTopK(Tagged(items, c), h, k) && OnceEach(h, listed) && !TrueTop(items, c, listed, k)
  {
    h := TwiceAndAbove(items, c, m);
    k := |h|;
    listed := Listing(items, c, h);
    TwiceAndAboveIsTop(items, c, m);
    ListingOnce(items, c, k, h);
    TooShort(items, c, m, n, listed);
  }

  lemma TooShort(items: seq<Item>, c: string, m: Item, n: Item, listed: seq<Elem>)
    requires DistinctItems(items) && m in items && n in items && m != n && Belongs(n, c) && n.score <= m.score
    requires OnceEach(TwiceAndAbove(items, c, m), listed) && ElemSet(listed) <= ElemSet(Tagged(items, c))
    ensures |listed| < |TwiceAndAbove(items, c, m)| && |listed| < |Members(items, c)|
  {
    var h := TwiceAndAbove(items, c, m);
    var x, y := Elem(m.id, m.score), Elem(n.id, n.score);
    var fewer := Above(Tagged(items, c), m.score) + [x];
    assert h == fewer + [x];
    SoloSize(listed);
    SoloSize(fewer);
    assert ElemSet(listed) == ElemSet(fewer);
    PushedSet(items, c);
    TwiceAndAboveCount(items, c, m, y);
    if y == x {
      SameItem(items, m, n);
    }
    assert y !in multiset(h);
    SubsetSize(ElemSet(listed), ElemSet(Tagged(items, c)) - {y});
  }

  /**
   The exact condition for the list, category by category: whatever top K the pushes leave, listing its elements
   once gives a true top K if and only if an item that enters c twice scores strictly below every other item of c.
   */
  lemma ListedExactly(items: seq<Item>, c: string)
    requires DistinctItems(items)
    ensures RepeatsLast(items, c)
            <==> forall k, h, listed :: IsTopK(Tagged(items, c), h, k) && OnceEach(h, listed) ==> TrueTop(items, c, listed, k)
  {
    if RepeatsLast(items, c) {
      forall k, h, listed | IsTopK(Tagged(items, c), h, k) && OnceEach(h, listed)
        ensures TrueTop(items, c, listed, k)
      {
        ListedTopK(items, h, listed, k, c);
      }
    } else {
      var m, n :| m in items && n in items && m != n && Entries(m, c) >= 2 && Belongs(n, c) && !(m.score < n.score);
      var k, h, listed := RepeatSpoils(items, c, m, n);
    }
  }

  /** The popped entries of a category are a true top K of its items, although the heaps were merged. */
  lemma PoppedTopK(items: seq<Item>, heaps: map<string, seq<Elem>>, k: nat, result: seq<Ranked>, c: string)
    requires DistinctItems(items) && RepeatsLast(items, c) && AllTopK(heaps, items, k) && Drained(heaps, result)
    ensures TrueTop(items, c, ListedFor(result, c), k)
  {
    assert IsTopK(Tagged(items, c), HeapOf(heaps, c), k);
    ListedAreKept(items, heaps, k, result, c);
    ListedTopK(items, HeapOf(heaps, c), ListedFor(result, c), k, c);
  }

  /**
   Push all items, then pop: each id once, by falling score, each entry with the score of its item, and
   for every category whose repeated items, if any, come last the tagged entries are a true top K of its items.
   */
  method PushThenPop(items: seq<Item>, k: nat) returns (result: seq<Ranked>)
    ensures ByScore(result) && OncePerId(result)
    ensures forall r :: r in result ==> exists m :: m in items && m.id == r.id && m.score == r.score
    ensures DistinctItems(items) ==> forall c :: RepeatsLast(items, c) ==> TrueTop(items, c, ListedFor(result, c), k)
  {
    var board := new NonPersonalized(k);
    for i := 0 to |items|
      invariant fresh(board) && board.Valid() && board.heapSize == k && board.items == items[..i]
    {
      assert items[..i + 1] == items[..i] + [items[i]];
      board.Push(items[i].id, items[i].categories, Some(items[i].score));
    }
    assert items[..|items|] == items;
    ghost var heaps := board.heaps;
    result := board.PopAll();
    assert Drained(heaps, result);
    forall r | r in result
      ensures exists m :: m in items && m.id == r.id && m.score == r.score
    {
      OwnScore(items, heaps, k, r);
    }
    forall c | DistinctItems(items) && RepeatsLast(items, c)
      ensures TrueTop(items, c, ListedFor(result, c), k)
    {
      PoppedTopK(items, heaps, k, result, c);
    }
  }
}
