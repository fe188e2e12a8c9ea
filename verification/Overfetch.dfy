/**
 Reading pages of a ranked list without the items a user has read. Both endpoints ask the store for
 as many extra entries as there are read items, drop the read ones and cut.
 */
module Overfetch {
  import opened Seqs

  /** Entries `begin` to `end` of a stored list; end -1 means no limit. */
  function Fetch(full: seq<string>, begin: nat, end: int): seq<string>
    requires end == -1 || begin <= end
  {
    if begin >= |full| then []
    else if end == -1 || end >= |full| then full[begin..]
    else full[begin..end]
  }

  function Unread(s: seq<string>, read: set<string>): seq<string> {
    if s == [] then []
    else if s[0] in read then Unread(s[1..], read)
    else [s[0]] + Unread(s[1..], read)
  }

  function Drop(s: seq<string>, n: nat): seq<string> {
    if n < |s| then s[n..] else []
  }

  method FilterUnread(s: seq<string>, read: set<string>) returns (r: seq<string>)
    ensures r == Unread(s, read)
  {
    r := [];
    for i := 0 to |s|
      invariant r + Unread(s[i..], read) == Unread(s, read)
    {
      assert s[i..][1..] == s[i + 1..];
      if s[i] !in read {
        r := r + [s[i]];
      }
    }
  }

  lemma {:induction false} UnreadConcat(a: seq<string>, b: seq<string>, read: set<string>)
    ensures Unread(a + b, read) == Unread(a, read) + Unread(b, read)
  {
    if a == [] {
      assert a + b == b;
    } else {
      assert (a + b)[1..] == a[1..] + b;
      UnreadConcat(a[1..], b, read);
    }
  }

  lemma {:induction false} UnreadMembers(a: seq<string>, read: set<string>)
    ensures |Unread(a, read)| <= |a|
    ensures forall x :: x in Unread(a, read) <==> x in a && x !in read
  {
    if a != [] {
      UnreadMembers(a[1..], read);
      assert a == [a[0]] + a[1..];
    }
  }

  lemma {:induction false} UnreadDistinct(a: seq<string>, read: set<string>)
    requires Distinct(a)
    ensures Distinct(Unread(a, read))
  {
    if a != [] {
      UnreadDistinct(a[1..], read);
      UnreadMembers(a[1..], read);
    }
  }

  lemma UnreadOfNone(a: seq<string>)
    ensures Unread(a, {}) == a
  {
    if a != [] {
      UnreadOfNone(a[1..]);
    }
  }

  /** A list without repeats loses at most one entry per read item. */
  lemma {:induction false} FewAreRead(a: seq<string>, read: set<string>)
    requires Distinct(a)
    ensures |a| <= |Unread(a, read)| + |read|
  {
    if a != [] {
      var x, tail := a[0], a[1..];
      if x in read {
        FewAreRead(tail, read - {x});
        SameWithout(tail, read, x);
      } else {
        FewAreRead(tail, read);
      }
    }
  }

  lemma {:induction false} SameWithout(a: seq<string>, read: set<string>, x: string)
    requires x !in a
    ensures Unread(a, read - {x}) == Unread(a, read)
  {
    if a != [] {
      SameWithout(a[1..], read, x);
    }
  }

  /** Fetching |read| entries more than needed is enough to know the first n unread ones. */
  lemma EnoughUnread(full: seq<string>, read: set<string>, n: nat)
    requires Distinct(full)
    ensures Take(Unread(Take(full, n + |read|), read), n) == Take(Unread(full, read), n)
  {
    if n + |read| < |full| {
      var head, tail := full[..n + |read|], full[n + |read|..];
      assert full == head + tail;
      FewAreRead(head, read);
      UnreadConcat(head, tail, read);
    }
  }

  /** The latest items of a database, up to a limit; what it does with a limit that is not positive is its own affair. */
  ghost predicate ServesLatest(latest: int -> seq<string>, full: seq<string>) {
    forall limit :: limit > 0 ==> latest(limit) == Take(full, limit)
  }

  /** The ranks begin to end of a stored list; other ranges are the store's own affair. */
  ghost predicate ServesRanks(search: (int, int) -> seq<string>, full: seq<string>) {
    forall begin, end :: 0 <= begin && (end == -1 || begin <= end) ==> search(begin, end) == Fetch(full, begin, end)
  }

  /**
   The latest-items endpoint. A negative offset is a slice out of range, on which the handler panics;
   without a positive n nothing is cut off at the end, and the page is whatever the widened limit brings in.
   */
  method GetLatest(latest: int -> seq<string>, ghost full: seq<string>, read: set<string>, offset: int, n: int)
    returns (page: Option<seq<string>>)
    requires ServesLatest(latest, full) && Distinct(full)
    ensures page.None? <==> offset < 0
    ensures offset >= 0 && n > 0 ==> page == Some(Take(Drop(Unread(full, read), offset), n))
    ensures offset >= 0 && n <= 0 ==> page == Some(Drop(Unread(latest(offset + n + |read|), read), offset))
  {
    var limit := offset + n;
    if |read| > 0 {
      limit := limit + |read|;
    }
    var items := latest(limit);
    ghost var fetched := items;
    if |read| > 0 {
      items := FilterUnread(items, read);
    } else {
      UnreadOfNone(items);
    }
    assert items == Unread(fetched, read);
    var start := if offset < |items| then offset else |items|;
    if start < 0 {
      return None;
    }
    if n > 0 {
      EnoughUnread(full, read, offset + n);
      TakeDrop(items, offset, n);
      TakeDrop(Unread(full, read), offset, n);
    }
    items := items[start..];
    if n > 0 && |items| > n {
      items := items[..n];
    }
    page := Some(items);
  }

  lemma TakeDrop(s: seq<string>, offset: nat, n: nat)
    ensures Take(Drop(s, offset), n) == Drop(Take(s, offset + n), offset)
  {
  }

  /** The beginning and the rest of a list. */
  lemma TakeAndDrop(s: seq<string>, n: nat)
    ensures Take(s, n) + Drop(s, n) == s && |Take(s, n)| == if n < |s| then n else |s|
  {
  }

  /**
   The ranked-documents endpoint: the offset counts raw ranks, the size counts unread entries. Without a
   positive n, or from a negative offset, the page is the unread part of what the store finds for that range.
   */
  method SearchDocuments(search: (int, int) -> seq<string>, ghost full: seq<string>, read: set<string>, offset: int, n: int)
    returns (items: seq<string>)
    requires ServesRanks(search, full) && Distinct(full)
    ensures offset >= 0 && n > 0 ==> items == Take(Unread(Drop(full, offset), read), n)
    ensures n <= 0 ==> items == Unread(search(offset, if offset + n > 0 then offset + n + |read| else offset + n), read)
    ensures n > 0 ==> |items| <= n && items <= Unread(search(offset, if offset + n > 0 then offset + n + |read| else offset + n), read)
  {
    var end := offset + n;
    if end > 0 && |read| > 0 {
      end := end + |read|;
    }
    items := search(offset, end);
    if offset >= 0 && n > 0 {
      assert items == Take(Drop(full, offset), n + |read|);
      assert Distinct(Drop(full, offset));
      EnoughUnread(Drop(full, offset), read, n);
    }
    items := FilterUnread(items, read);
    if n > 0 && |items| > n {
      items := items[..n];
    }
  }

  function LatestPage(full: seq<string>, read: set<string>, offset: nat, n: nat): seq<string> {
    Take(Drop(Unread(full, read), offset), n)
  }

  function DocumentPage(full: seq<string>, read: set<string>, offset: nat, n: nat): seq<string> {
    Take(Unread(Drop(full, offset), read), n)
  }

  /** Consecutive pages of the latest items are consecutive stretches of the unread list. */
  lemma LatestPagesTile(full: seq<string>, read: set<string>, offset: nat, n: nat)
    ensures LatestPage(full, read, offset, n) + LatestPage(full, read, offset + n, n) == LatestPage(full, read, offset, n + n)
  {
  }

  /**
   Consecutive pages of ranked documents may overlap, because the offset counts raw ranks. They are
   disjoint exactly when no read item lies in the first window or no unread one lies behind it.
   */
  lemma DocumentPagesDisjoint(full: seq<string>, read: set<string>, offset: nat, n: nat)
    requires Distinct(full) && n > 0
    ensures (forall x :: x !in DocumentPage(full, read, offset, n) || x !in DocumentPage(full, read, offset + n, n))
            <==> (forall x :: x in Take(Drop(full, offset), n) ==> x !in read)
                 || (forall x :: x in Drop(full, offset + n) ==> x in read)
  {
    var window, behind := Take(Drop(full, offset), n), Drop(full, offset + n);
    var ahead := Drop(full, offset);
    assert ahead == window + behind;
    UnreadConcat(window, behind, read);
    UnreadMembers(window, read);
    UnreadMembers(behind, read);
    UnreadDistinct(ahead, read);
    var first, second := DocumentPage(full, read, offset, n), DocumentPage(full, read, offset + n, n);
    var w, b := Unread(window, read), Unread(behind, read);
    if b == [] {
      forall x | x in behind
        ensures x in read
      {
        assert x !in b;
      }
    } else if |w| == |window| == n {
      assert first == w;
      AllKept(window, read);
      forall i, j | 0 <= i < |w| && 0 <= j < |b|
        ensures w[i] != b[j]
      {
        assert (w + b)[i] != (w + b)[|w| + j];
      }
      assert forall x :: x in second ==> x in b;
    } else {
      assert |window| == n;
      assert b[0] == Unread(ahead, read)[|w|];
      assert b[0] in first && b[0] in second;
      assert b[0] in behind && b[0] !in read;
      if forall x :: x in window ==> x !in read {
        NoneRead(window, read);
      }
    }
  }

  /** For instance: with the first of three entries read, two pages of one entry both show the second one. */
  lemma DocumentPagesOverlap(a: string, b: string, c: string)
    requires Distinct([a, b, c])
    ensures DocumentPage([a, b, c], {a}, 0, 1) == DocumentPage([a, b, c], {a}, 1, 1) == [b]
  {
    assert Distinct([a, b, c]) && [a, b, c][0] == a && [a, b, c][1] == b && [a, b, c][2] == c;
    assert Drop([a, b, c], 0) == [a] + [b, c] && Drop([a, b, c], 1) == [b, c];
    UnreadConcat([a], [b, c], {a});
    assert Unread([b, c], {a}) == [b] + Unread([c], {a}) by {
      assert [b, c][1..] == [c];
    }
    assert Unread([a], {a}) == [];
  }

  lemma {:induction false} AllKept(a: seq<string>, read: set<string>)
    requires |Unread(a, read)| == |a|
    ensures forall x :: x in a ==> x !in read
  {
    if a != [] {
      UnreadMembers(a[1..], read);
      AllKept(a[1..], read);
      assert a == [a[0]] + a[1..];
    }
  }

  lemma {:induction false} NoneRead(a: seq<string>, read: set<string>)
    requires forall x :: x in a ==> x !in read
    ensures Unread(a, read) == a
  {
    if a != [] {
      NoneRead(a[1..], read);
    }
  }
}
